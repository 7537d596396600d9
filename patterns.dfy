/** The seven fixed regular expressions of RegexPatterns, each given twice:
    as a relation (MatchesAt: which start position and which quantifier
    stops make the pattern match) with the backtracking priority of the
    .NET engine (Before), and as a matcher (Attempt, Scan, RegexMatch)
    proved to return the leftmost-first match that the relation defines. */
module Patterns {
  import opened Text

  datatype Pattern =
    | Barcode              // P\|1\|\|(.*?)\|
    | SendTime             // H\|.*\|\|(\d{14})
    | ResultTime           // O\|1\|\|.*?\|.*?\|.*?\|(\d{14})
    | TestTypeAbScreening  // Result\^(\w+)\^Ab\.screening
    | ResultAbScreening    // Result\^CN15B\^.*?\|\^\^(.+?)\^
    | TestTypeBloodgroup   // Result\^(\w+)\^Bloodgr
    | ResultBloodgroup     // Result\^MO31X\^.*?\|(.*?)\^(.+?)\^

  /** The literal every match of the pattern starts with. */
  function Prefix(p: Pattern): string {
    match p
    case Barcode => "P|1||"
    case SendTime => "H|"
    case ResultTime => "O|1||"
    case TestTypeAbScreening => "Result^"
    case TestTypeBloodgroup => "Result^"
    case ResultAbScreening => "Result^CN15B^"
    case ResultBloodgroup => "Result^MO31X^"
  }

  /** The literal that closes a test-name pattern, after its `(\w+)`. */
  function Marker(p: Pattern): string {
    if p == TestTypeAbScreening then "^Ab.screening" else "^Bloodgr"
  }

  /** How many positions a match records: one per quantifier whose extent is not fixed. */
  function Arity(p: Pattern): nat {
    match p
    case ResultTime => 3
    case ResultBloodgroup => 3
    case ResultAbScreening => 2
    case _ => 1
  }

  /** The quantifiers whose extents a match records are greedy (`.*`, `\w+`)
      in these patterns and lazy (`.*?`, `.+?`) in the others. */
  predicate Greedy(p: Pattern) {
    p == SendTime || p == TestTypeAbScreening || p == TestTypeBloodgroup
  }

  /** The number of capture groups in the pattern. */
  function GroupCount(p: Pattern): nat {
    if p == ResultBloodgroup then 2 else 1
  }

  // ---------------------------------------------------------------------
  // What each pattern accepts after its prefix, which ends at position j

  /** `(.*?)\|`: the group is s[j..e]. */
  ghost predicate BarcodeMatch(s: string, j: nat, e: nat, singleline: bool) {
    AllDot(s, j, e, singleline) && AnchorAt(s, e, Exactly("|"))
  }

  /** `.*\|\|(\d{14})`: the group is s[e+2..e+16]. */
  ghost predicate SendTimeMatch(s: string, j: nat, e: nat, singleline: bool) {
    AllDot(s, j, e, singleline) && AnchorAt(s, e, Stamp("||"))
  }

  /** `.*?\|.*?\|.*?\|(\d{14})`: the bars at a, b and c; the group is s[c+1..c+15]. */
  ghost predicate ResultTimeMatch(s: string, j: nat, a: nat, b: nat, c: nat, singleline: bool) {
    AllDot(s, j, a, singleline) && AnchorAt(s, a, Exactly("|")) &&
    AllDot(s, a + 1, b, singleline) && AnchorAt(s, b, Exactly("|")) &&
    AllDot(s, b + 1, c, singleline) && AnchorAt(s, c, Stamp("|"))
  }

  /** `(\w+)` followed by the marker: the group is s[j..e]. */
  ghost predicate TestTypeMatch(s: string, j: nat, e: nat, marker: string) {
    j < e && AllWord(s, j, e) && LitAt(s, e, marker)
  }

  /** `.*?\|\^\^(.+?)\^`: the bar at b, the closing caret at e; the group is s[b+3..e]. */
  ghost predicate ResultAbMatch(s: string, j: nat, b: nat, e: nat, singleline: bool) {
    AllDot(s, j, b, singleline) && AnchorAt(s, b, Exactly("|^^")) &&
    b + 3 < e && AllDot(s, b + 3, e, singleline) && AnchorAt(s, e, Exactly("^"))
  }

  /** `.*?\|(.*?)\^(.+?)\^`: the bar at b, carets at q and e; the groups are s[b+1..q] and s[q+1..e]. */
  ghost predicate ResultBloodgroupMatch(s: string, j: nat, b: nat, q: nat, e: nat, singleline: bool) {
    AllDot(s, j, b, singleline) && AnchorAt(s, b, Exactly("|")) &&
    AllDot(s, b + 1, q, singleline) && AnchorAt(s, q, Exactly("^")) &&
    q + 1 < e && AllDot(s, q + 1, e, singleline) && AnchorAt(s, e, Exactly("^"))
  }

  ghost predicate BodyMatches(p: Pattern, s: string, j: nat, m: seq<nat>, singleline: bool) {
    |m| == Arity(p) &&
    match p
    case Barcode => BarcodeMatch(s, j, m[0], singleline)
    case SendTime => SendTimeMatch(s, j, m[0], singleline)
    case ResultTime => ResultTimeMatch(s, j, m[0], m[1], m[2], singleline)
    case TestTypeAbScreening => TestTypeMatch(s, j, m[0], Marker(p))
    case TestTypeBloodgroup => TestTypeMatch(s, j, m[0], Marker(p))
    case ResultAbScreening => ResultAbMatch(s, j, m[0], m[1], singleline)
    case ResultBloodgroup => ResultBloodgroupMatch(s, j, m[0], m[1], m[2], singleline)
  }

  /** The pattern matches `s` starting at `i`, its quantifiers stopping at
      the positions `m`. `singleline` is RegexOptions.Singleline. */
  ghost predicate MatchesAt(p: Pattern, s: string, i: nat, m: seq<nat>, singleline: bool) {
    LitAt(s, i, Prefix(p)) && BodyMatches(p, s, i + |Prefix(p)|, m, singleline)
  }

  /** Lexicographic order on stop sequences of equal length (at most three). */
  ghost predicate LexLess(m: seq<nat>, m': seq<nat>) {
    |m| == |m'| && 0 < |m| <= 3 &&
    (m[0] < m'[0] ||
     (m[0] == m'[0] && 1 < |m| &&
      (m[1] < m'[1] || (m[1] == m'[1] && 2 < |m| && m[2] < m'[2]))))
  }

  /** Stops that are lexicographically no later and not equal are earlier. */
  lemma LexStrict(m: seq<nat>, m': seq<nat>)
    requires |m| == |m'| && 0 < |m| <= 3 && m != m'
    requires m[0] < m'[0] ||
      (m[0] == m'[0] && (|m| == 1 || m[1] < m'[1] || (m[1] == m'[1] && (|m| == 2 || m[2] <= m'[2]))))
    ensures LexLess(m, m')
  {
  }

  /** The backtracking engine tries stops `m` before stops `m'`: a lazy
      quantifier tries its shorter extents first, a greedy one its longer
      ones, and an earlier quantifier is varied last. */
  ghost predicate Before(p: Pattern, m: seq<nat>, m': seq<nat>) {
    |m| == |m'| == Arity(p) &&
    if Greedy(p) then m[0] > m'[0] else LexLess(m, m')
  }

  /** `m` is the match the engine reports when it tries start `i`. */
  ghost predicate FirstAt(p: Pattern, s: string, i: nat, m: seq<nat>, singleline: bool) {
    MatchesAt(p, s, i, m, singleline) &&
    forall m' :: MatchesAt(p, s, i, m', singleline) && m' != m ==> Before(p, m, m')
  }

  /** `(i, m)` is the match Regex.Match reports: the leftmost start, and
      at that start the first stops in backtracking order. */
  ghost predicate IsFirstMatch(p: Pattern, s: string, i: nat, m: seq<nat>, singleline: bool) {
    FirstAt(p, s, i, m, singleline) &&
    forall i': nat, m' :: i' < i ==> !MatchesAt(p, s, i', m', singleline)
  }

  // ---------------------------------------------------------------------
  // The matcher after the prefix, pattern by pattern

  function BarcodeBody(s: string, j: nat, singleline: bool): Option<seq<nat>>
    requires j <= |s|
  {
    match Next(s, j, Exactly("|"), singleline)
    case None => None
    case Some(e) => Some([e])
  }

  function SendTimeBody(s: string, j: nat, singleline: bool): Option<seq<nat>>
    requires j <= |s|
  {
    match Last(s, j, DotEnd(s, j, singleline), Stamp("||"))
    case None => None
    case Some(e) => Some([e])
  }

  function ResultTimeBody(s: string, j: nat, singleline: bool): Option<seq<nat>>
    requires j <= |s|
  {
    match Next(s, j, Exactly("|"), singleline)
    case None => None
    case Some(a) => ResultTimeAfter(s, a, singleline)
  }

  /** The last two `.*?\|` of ResultTime, once the first stopped at `a`. */
  function ResultTimeAfter(s: string, a: nat, singleline: bool): Option<seq<nat>>
    requires a < |s|
  {
    match Next(s, a + 1, Exactly("|"), singleline)
    case None => None
    case Some(b) => ResultTimeStamp(s, a, b, singleline)
  }

  /** The last `.*?\|(\d{14})` of ResultTime, once the first two stopped at `a` and `b`. */
  function ResultTimeStamp(s: string, a: nat, b: nat, singleline: bool): Option<seq<nat>>
    requires b < |s|
  {
    match Next(s, b + 1, Stamp("|"), singleline)
    case None => None
    case Some(c) => Some([a, b, c])
  }

  function TestTypeBody(s: string, j: nat, marker: string): Option<seq<nat>>
    requires j <= |s|
  {
    var e := WordEnd(s, j);
    if j < e && LitAt(s, e, marker) then Some([e]) else None
  }

  function ResultAbBody(s: string, j: nat, singleline: bool): Option<seq<nat>>
    requires j <= |s|
  {
    match Next(s, j, Exactly("|^^"), singleline)
    case None => None
    case Some(b) => ResultAbAfter(s, b, singleline)
  }

  /** The capture group of ResultAbScreening, once `.*?\|\^\^` stopped at `b`. */
  function ResultAbAfter(s: string, b: nat, singleline: bool): Option<seq<nat>>
    requires b + 3 <= |s|
  {
    if b + 3 < |s| && IsDot(s[b + 3], singleline) then
      match Next(s, b + 4, Exactly("^"), singleline)
      case None => None
      case Some(e) => Some([b, e])
    else None
  }

  function ResultBloodgroupBody(s: string, j: nat, singleline: bool): Option<seq<nat>>
    requires j <= |s|
  {
    match Next(s, j, Exactly("|"), singleline)
    case None => None
    case Some(b) => ResultBloodgroupAfter(s, b, singleline)
  }

  /** The two capture groups of ResultBloodgroup, once `.*?\|` stopped at `b`. */
  function ResultBloodgroupAfter(s: string, b: nat, singleline: bool): Option<seq<nat>>
    requires b < |s|
  {
    match Next(s, b + 1, Exactly("^"), singleline)
    case None => None
    case Some(q) => ResultBloodgroupSecond(s, b, q, singleline)
  }

  /** The second capture group of ResultBloodgroup, once the first ended at `q`. */
  function ResultBloodgroupSecond(s: string, b: nat, q: nat, singleline: bool): Option<seq<nat>>
    requires q < |s|
  {
    if q + 1 < |s| && IsDot(s[q + 1], singleline) then
      match Next(s, q + 2, Exactly("^"), singleline)
      case None => None
      case Some(e) => Some([b, q, e])
    else None
  }

  // ---------------------------------------------------------------------
  // Each body matcher finds the first stops in backtracking order

  lemma NoNewlineLits()
    ensures forall j :: 0 <= j < |"|"| ==> "|"[j] != '\n'
    ensures forall j :: 0 <= j < |"^"| ==> "^"[j] != '\n'
    ensures forall j :: 0 <= j < |"|^^"| ==> "|^^"[j] != '\n'
  {
  }

  lemma AllDotConcat(s: string, lo: nat, mid: nat, hi: nat, singleline: bool)
    requires AllDot(s, lo, mid, singleline) && AllDot(s, mid, hi, singleline)
    ensures AllDot(s, lo, hi, singleline)
  {
  }

  lemma BarcodeBodyFirst(s: string, j: nat, singleline: bool)
    requires j <= |s|
    ensures BarcodeBody(s, j, singleline).Some? ==>
      var v := BarcodeBody(s, j, singleline).value;
      |v| == 1 && BarcodeMatch(s, j, v[0], singleline)
    ensures forall e' :: BarcodeMatch(s, j, e', singleline) ==>
      BarcodeBody(s, j, singleline).Some? && BarcodeBody(s, j, singleline).value[0] <= e'
  {
  }

  lemma SendTimeBodyFirst(s: string, j: nat, singleline: bool)
    requires j <= |s|
    ensures SendTimeBody(s, j, singleline).Some? ==>
      var v := SendTimeBody(s, j, singleline).value;
      |v| == 1 && SendTimeMatch(s, j, v[0], singleline)
    ensures forall e' :: SendTimeMatch(s, j, e', singleline) ==>
      SendTimeBody(s, j, singleline).Some? && SendTimeBody(s, j, singleline).value[0] >= e'
  {
  }

  lemma ResultTimeAfterIs(s: string, a: nat, b: nat, c: nat, singleline: bool)
    requires a < |s|
    requires Next(s, a + 1, Exactly("|"), singleline) == Some(b)
    requires b < |s| && Next(s, b + 1, Stamp("|"), singleline) == Some(c)
    ensures ResultTimeAfter(s, a, singleline) == Some([a, b, c])
  {
  }

  /** Whatever stops a', b', c' the three lazy `.*?\|` of ResultTime can
      reach, the matcher's stops come no later in backtracking order. */
  lemma ResultTimeMinimal(s: string, j: nat, a': nat, b': nat, c': nat, singleline: bool)
    requires j <= |s| && ResultTimeMatch(s, j, a', b', c', singleline)
    ensures ResultTimeBody(s, j, singleline).Some?
    ensures var v := ResultTimeBody(s, j, singleline).value;
      |v| == 3 && (v[0] < a' || (v[0] == a' && (v[1] < b' || (v[1] == b' && v[2] <= c'))))
  {
    NoNewlineLits();
    // the three stops lie on one stretch of dots
    LitAtIsDot(s, a', "|", singleline);
    LitAtIsDot(s, b', "|", singleline);
    AllDotConcat(s, j, a', a' + 1, singleline);
    AllDotConcat(s, j, a' + 1, b', singleline);
    AllDotConcat(s, j, b', b' + 1, singleline);
    AllDotConcat(s, j, b' + 1, c', singleline);
    NextAtMost(s, j, Exactly("|"), singleline, a');
    var a := Next(s, j, Exactly("|"), singleline).value;
    AllDotSub(s, j, c', a + 1, b', singleline);
    NextAtMost(s, a + 1, Exactly("|"), singleline, b');
    var b := Next(s, a + 1, Exactly("|"), singleline).value;
    AllDotSub(s, j, c', b + 1, c', singleline);
    NextAtMost(s, b + 1, Stamp("|"), singleline, c');
    var c := Next(s, b + 1, Stamp("|"), singleline).value;
    ResultTimeAfterIs(s, a, b, c, singleline);
  }

  lemma ResultTimeBodyFirst(s: string, j: nat, singleline: bool)
    requires j <= |s|
    ensures ResultTimeBody(s, j, singleline).Some? ==>
      var v := ResultTimeBody(s, j, singleline).value;
      |v| == 3 && ResultTimeMatch(s, j, v[0], v[1], v[2], singleline)
    ensures forall a', b', c' :: ResultTimeMatch(s, j, a', b', c', singleline) ==>
      ResultTimeBody(s, j, singleline).Some? &&
      var v := ResultTimeBody(s, j, singleline).value;
      |v| == 3 && (v[0] < a' || (v[0] == a' && (v[1] < b' || (v[1] == b' && v[2] <= c'))))
  {
    forall a', b', c' | ResultTimeMatch(s, j, a', b', c', singleline)
      ensures ResultTimeBody(s, j, singleline).Some? &&
        var v := ResultTimeBody(s, j, singleline).value;
        |v| == 3 && (v[0] < a' || (v[0] == a' && (v[1] < b' || (v[1] == b' && v[2] <= c'))))
    {
      ResultTimeMinimal(s, j, a', b', c', singleline);
    }
  }

  lemma TestTypeBodyFirst(s: string, j: nat, marker: string)
    requires j <= |s| && |marker| > 0 && marker[0] == '^'
    ensures TestTypeBody(s, j, marker).Some? ==>
      var v := TestTypeBody(s, j, marker).value;
      |v| == 1 && TestTypeMatch(s, j, v[0], marker)
    ensures forall e' :: TestTypeMatch(s, j, e', marker) ==>
      TestTypeBody(s, j, marker) == Some([e'])
  {
  }

  lemma ResultAbAfterIs(s: string, b: nat, e: nat, singleline: bool)
    requires b + 3 < |s| && IsDot(s[b + 3], singleline)
    requires Next(s, b + 4, Exactly("^"), singleline) == Some(e)
    ensures ResultAbAfter(s, b, singleline) == Some([b, e])
  {
  }

  /** Whatever stops b', e' the lazy `.*?\|\^\^` and `(.+?)\^` of
      ResultAbScreening can reach, the matcher's stops come no later. */
  lemma ResultAbMinimal(s: string, j: nat, b': nat, e': nat, singleline: bool)
    requires j <= |s| && ResultAbMatch(s, j, b', e', singleline)
    ensures ResultAbBody(s, j, singleline).Some?
    ensures var v := ResultAbBody(s, j, singleline).value;
      |v| == 2 && (v[0] < b' || (v[0] == b' && v[1] <= e'))
  {
    NoNewlineLits();
    LitAtIsDot(s, b', "|^^", singleline);
    AllDotConcat(s, j, b', b' + 3, singleline);
    AllDotConcat(s, j, b' + 3, e', singleline);
    NextAtMost(s, j, Exactly("|^^"), singleline, b');
    var b := Next(s, j, Exactly("|^^"), singleline).value;
    AllDotSub(s, j, e', b + 3, e', singleline);
    AllDotSub(s, j, e', b + 4, e', singleline);
    NextAtMost(s, b + 4, Exactly("^"), singleline, e');
    var e := Next(s, b + 4, Exactly("^"), singleline).value;
    ResultAbAfterIs(s, b, e, singleline);
  }

  lemma ResultAbBodyFirst(s: string, j: nat, singleline: bool)
    requires j <= |s|
    ensures ResultAbBody(s, j, singleline).Some? ==>
      var v := ResultAbBody(s, j, singleline).value;
      |v| == 2 && ResultAbMatch(s, j, v[0], v[1], singleline)
    ensures forall b', e' :: ResultAbMatch(s, j, b', e', singleline) ==>
      ResultAbBody(s, j, singleline).Some? &&
      var v := ResultAbBody(s, j, singleline).value;
      |v| == 2 && (v[0] < b' || (v[0] == b' && v[1] <= e'))
  {
    var n := Next(s, j, Exactly("|^^"), singleline);
    if n.Some? && ResultAbAfter(s, n.value, singleline).Some? {
      var b := n.value;
      var e := Next(s, b + 4, Exactly("^"), singleline).value;
      AllDotJoin(s, b + 3, b + 3, e, singleline);
    }
    forall b', e' | ResultAbMatch(s, j, b', e', singleline)
      ensures ResultAbBody(s, j, singleline).Some? &&
        var v := ResultAbBody(s, j, singleline).value;
        |v| == 2 && (v[0] < b' || (v[0] == b' && v[1] <= e'))
    {
      ResultAbMinimal(s, j, b', e', singleline);
    }
  }

  lemma ResultBloodgroupAfterIs(s: string, b: nat, q: nat, e: nat, singleline: bool)
    requires b < |s|
    requires Next(s, b + 1, Exactly("^"), singleline) == Some(q)
    requires q + 1 < |s| && IsDot(s[q + 1], singleline)
    requires Next(s, q + 2, Exactly("^"), singleline) == Some(e)
    ensures ResultBloodgroupAfter(s, b, singleline) == Some([b, q, e])
  {
  }

  /** Whatever stops b', q', e' the lazy `.*?\|`, `(.*?)\^` and `(.+?)\^`
      of ResultBloodgroup can reach, the matcher's stops come no later. */
  lemma ResultBloodgroupMinimal(s: string, j: nat, b': nat, q': nat, e': nat, singleline: bool)
    requires j <= |s| && ResultBloodgroupMatch(s, j, b', q', e', singleline)
    ensures ResultBloodgroupBody(s, j, singleline).Some?
    ensures var v := ResultBloodgroupBody(s, j, singleline).value;
      |v| == 3 && (v[0] < b' || (v[0] == b' && (v[1] < q' || (v[1] == q' && v[2] <= e'))))
  {
    NoNewlineLits();
    LitAtIsDot(s, b', "|", singleline);
    LitAtIsDot(s, q', "^", singleline);
    AllDotConcat(s, j, b', b' + 1, singleline);
    AllDotConcat(s, j, b' + 1, q', singleline);
    AllDotConcat(s, j, q', q' + 1, singleline);
    AllDotConcat(s, j, q' + 1, e', singleline);
    NextAtMost(s, j, Exactly("|"), singleline, b');
    var b := Next(s, j, Exactly("|"), singleline).value;
    AllDotSub(s, j, e', b + 1, q', singleline);
    NextAtMost(s, b + 1, Exactly("^"), singleline, q');
    var q := Next(s, b + 1, Exactly("^"), singleline).value;
    AllDotSub(s, j, e', q + 1, e', singleline);
    AllDotSub(s, j, e', q + 2, e', singleline);
    NextAtMost(s, q + 2, Exactly("^"), singleline, e');
    var e := Next(s, q + 2, Exactly("^"), singleline).value;
    ResultBloodgroupAfterIs(s, b, q, e, singleline);
  }

  /** `(.+?)\^` after the first group: a non-empty run of dots, then a caret. */
  lemma ResultBloodgroupSecondSound(s: string, b: nat, q: nat, singleline: bool)
    requires q < |s|
    ensures ResultBloodgroupSecond(s, b, q, singleline).Some? ==>
      var v := ResultBloodgroupSecond(s, b, q, singleline).value;
      v == [b, q, v[2]] && q + 1 < v[2] && AllDot(s, q + 1, v[2], singleline) &&
      AnchorAt(s, v[2], Exactly("^"))
  {
  }

  lemma ResultBloodgroupBodyFirst(s: string, j: nat, singleline: bool)
    requires j <= |s|
    ensures ResultBloodgroupBody(s, j, singleline).Some? ==>
      var v := ResultBloodgroupBody(s, j, singleline).value;
      |v| == 3 && ResultBloodgroupMatch(s, j, v[0], v[1], v[2], singleline)
    ensures forall b', q', e' :: ResultBloodgroupMatch(s, j, b', q', e', singleline) ==>
      ResultBloodgroupBody(s, j, singleline).Some? &&
      var v := ResultBloodgroupBody(s, j, singleline).value;
      |v| == 3 && (v[0] < b' || (v[0] == b' && (v[1] < q' || (v[1] == q' && v[2] <= e'))))
  {
    var n := Next(s, j, Exactly("|"), singleline);
    if n.Some? {
      var b := n.value;
      var nq := Next(s, b + 1, Exactly("^"), singleline);
      if nq.Some? {
        ResultBloodgroupSecondSound(s, b, nq.value, singleline);
      }
    }
    forall b', q', e' | ResultBloodgroupMatch(s, j, b', q', e', singleline)
      ensures ResultBloodgroupBody(s, j, singleline).Some? &&
        var v := ResultBloodgroupBody(s, j, singleline).value;
        |v| == 3 && (v[0] < b' || (v[0] == b' && (v[1] < q' || (v[1] == q' && v[2] <= e'))))
    {
      ResultBloodgroupMinimal(s, j, b', q', e', singleline);
    }
  }

  // ---------------------------------------------------------------------
  // One attempt at a start position, the scan for the leftmost start, Regex.Match

  function Body(p: Pattern, s: string, j: nat, singleline: bool): Option<seq<nat>>
    requires j <= |s|
  {
    match p
    case Barcode => BarcodeBody(s, j, singleline)
    case SendTime => SendTimeBody(s, j, singleline)
    case ResultTime => ResultTimeBody(s, j, singleline)
    case TestTypeAbScreening => TestTypeBody(s, j, Marker(p))
    case TestTypeBloodgroup => TestTypeBody(s, j, Marker(p))
    case ResultAbScreening => ResultAbBody(s, j, singleline)
    case ResultBloodgroup => ResultBloodgroupBody(s, j, singleline)
  }

  /** The engine tried at start `i`: the prefix, then the body. */
  function Attempt(p: Pattern, s: string, i: nat, singleline: bool): Option<seq<nat>>
    requires i <= |s|
  {
    if LitAt(s, i, Prefix(p)) then Body(p, s, i + |Prefix(p)|, singleline) else None
  }

  /** `r` is what the engine reports for start `i`: the first stops in
      backtracking order, or nothing when the pattern does not match there. */
  ghost predicate FirstOrNone(p: Pattern, s: string, i: nat, r: Option<seq<nat>>, singleline: bool) {
    (r.Some? ==> FirstAt(p, s, i, r.value, singleline)) &&
    (r.None? ==> forall m :: !MatchesAt(p, s, i, m, singleline))
  }

  lemma BarcodeFirst(s: string, i: nat, singleline: bool)
    requires i <= |s|
    ensures FirstOrNone(Barcode, s, i, Attempt(Barcode, s, i, singleline), singleline)
  {
  }

  lemma SendTimeFirst(s: string, i: nat, singleline: bool)
    requires i <= |s|
    ensures FirstOrNone(SendTime, s, i, Attempt(SendTime, s, i, singleline), singleline)
  {
  }

  lemma ResultTimeFirst(s: string, i: nat, singleline: bool)
    requires i <= |s|
    ensures FirstOrNone(ResultTime, s, i, Attempt(ResultTime, s, i, singleline), singleline)
  {
    var r := Attempt(ResultTime, s, i, singleline);
    if LitAt(s, i, Prefix(ResultTime)) {
      var j := i + |Prefix(ResultTime)|;
      ResultTimeBodyFirst(s, j, singleline);
      forall m' | MatchesAt(ResultTime, s, i, m', singleline) && r.Some? && m' != r.value
        ensures Before(ResultTime, r.value, m')
      {
        LexStrict(r.value, m');
      }
    }
  }

  lemma TestTypeAbFirst(s: string, i: nat, singleline: bool)
    requires i <= |s|
    ensures FirstOrNone(TestTypeAbScreening, s, i, Attempt(TestTypeAbScreening, s, i, singleline), singleline)
  {
    var r := Attempt(TestTypeAbScreening, s, i, singleline);
    if LitAt(s, i, Prefix(TestTypeAbScreening)) {
      var j := i + |Prefix(TestTypeAbScreening)|;
      TestTypeBodyFirst(s, j, Marker(TestTypeAbScreening));
      forall m' | MatchesAt(TestTypeAbScreening, s, i, m', singleline) && r.Some?
        ensures m' == r.value
      {
        assert m' == [m'[0]];
      }
    }
  }

  lemma TestTypeBgFirst(s: string, i: nat, singleline: bool)
    requires i <= |s|
    ensures FirstOrNone(TestTypeBloodgroup, s, i, Attempt(TestTypeBloodgroup, s, i, singleline), singleline)
  {
    var r := Attempt(TestTypeBloodgroup, s, i, singleline);
    if LitAt(s, i, Prefix(TestTypeBloodgroup)) {
      var j := i + |Prefix(TestTypeBloodgroup)|;
      TestTypeBodyFirst(s, j, Marker(TestTypeBloodgroup));
      forall m' | MatchesAt(TestTypeBloodgroup, s, i, m', singleline) && r.Some?
        ensures m' == r.value
      {
        assert m' == [m'[0]];
      }
    }
  }

  lemma ResultAbFirst(s: string, i: nat, singleline: bool)
    requires i <= |s|
    ensures FirstOrNone(ResultAbScreening, s, i, Attempt(ResultAbScreening, s, i, singleline), singleline)
  {
    var r := Attempt(ResultAbScreening, s, i, singleline);
    if LitAt(s, i, Prefix(ResultAbScreening)) {
      var j := i + |Prefix(ResultAbScreening)|;
      ResultAbBodyFirst(s, j, singleline);
      forall m' | MatchesAt(ResultAbScreening, s, i, m', singleline) && r.Some? && m' != r.value
        ensures Before(ResultAbScreening, r.value, m')
      {
        LexStrict(r.value, m');
      }
    }
  }

  lemma ResultBloodgroupFirst(s: string, i: nat, singleline: bool)
    requires i <= |s|
    ensures FirstOrNone(ResultBloodgroup, s, i, Attempt(ResultBloodgroup, s, i, singleline), singleline)
  {
    var r := Attempt(ResultBloodgroup, s, i, singleline);
    if LitAt(s, i, Prefix(ResultBloodgroup)) {
      var j := i + |Prefix(ResultBloodgroup)|;
      ResultBloodgroupBodyFirst(s, j, singleline);
      forall m' | MatchesAt(ResultBloodgroup, s, i, m', singleline) && r.Some? && m' != r.value
        ensures Before(ResultBloodgroup, r.value, m')
      {
        LexStrict(r.value, m');
      }
    }
  }

  lemma AttemptFirst(p: Pattern, s: string, i: nat, singleline: bool)
    requires i <= |s|
    ensures FirstOrNone(p, s, i, Attempt(p, s, i, singleline), singleline)
  {
    match p
    case Barcode => BarcodeFirst(s, i, singleline);
    case SendTime => SendTimeFirst(s, i, singleline);
    case ResultTime => ResultTimeFirst(s, i, singleline);
    case TestTypeAbScreening => TestTypeAbFirst(s, i, singleline);
    case TestTypeBloodgroup => TestTypeBgFirst(s, i, singleline);
    case ResultAbScreening => ResultAbFirst(s, i, singleline);
    case ResultBloodgroup => ResultBloodgroupFirst(s, i, singleline);
  }

  /** A match the engine finds at the start of the input is the first match. */
  lemma AttemptAtZeroFirst(p: Pattern, s: string, m: seq<nat>, singleline: bool)
    requires Attempt(p, s, 0, singleline) == Some(m)
    ensures IsFirstMatch(p, s, 0, m, singleline)
  {
    AttemptFirst(p, s, 0, singleline);
  }

  /** The attempts at every start position of `s`, left to right. */
  function Attempts(p: Pattern, s: string, singleline: bool): seq<Option<seq<nat>>> {
    seq(|s| + 1, i requires 0 <= i <= |s| => Attempt(p, s, i, singleline))
  }

  /** The engine tries the starts from `from` on, left to right, and stops
      at the first one where the attempt succeeds. */
  function Scan<T>(tries: seq<Option<T>>, from: nat): (r: Option<nat>)
    requires from <= |tries|
    ensures r.Some? ==> from <= r.value < |tries| && tries[r.value].Some?
    ensures r.Some? ==> forall i :: from <= i < r.value ==> tries[i].None?
    ensures r.None? ==> forall i :: from <= i < |tries| ==> tries[i].None?
    decreases |tries| - from
  {
    if from == |tries| then None
    else if tries[from].Some? then Some(from)
    else Scan(tries, from + 1)
  }

  /** No match starts at or after the end of the input: every prefix is non-empty. */
  lemma MatchesInside(p: Pattern, s: string, i: nat, m: seq<nat>, singleline: bool)
    requires MatchesAt(p, s, i, m, singleline)
    ensures i < |s|
  {
  }

  /** A match is its prefix followed by a match of the body. */
  lemma MatchedBody(p: Pattern, s: string, i: nat, m: seq<nat>, singleline: bool)
    requires MatchesAt(p, s, i, m, singleline)
    ensures i + |Prefix(p)| <= |s| && BodyMatches(p, s, i + |Prefix(p)|, m, singleline)
  {
  }

  /** What the scan from the start of the input finds is the first match. */
  lemma ScanFirst(p: Pattern, s: string, singleline: bool)
    ensures var tries := Attempts(p, s, singleline);
      var r := Scan(tries, 0);
      (r.Some? ==> IsFirstMatch(p, s, r.value, tries[r.value].value, singleline)) &&
      (r.None? ==> forall i: nat, m :: !MatchesAt(p, s, i, m, singleline))
  {
    var tries := Attempts(p, s, singleline);
    var r := Scan(tries, 0);
    var last := if r.Some? then r.value else |s| + 1;
    forall i: nat, m | MatchesAt(p, s, i, m, singleline) && i < last
      ensures false
    {
      MatchesInside(p, s, i, m, singleline);
      assert tries[i] == Attempt(p, s, i, singleline);
      AttemptFirst(p, s, i, singleline);
    }
    if r.Some? {
      AttemptFirst(p, s, r.value, singleline);
    }
  }

  /** The text of each group of a match: the whole match, then the captures
      in order. The whole match starts at `i`, the body at `j`. */
  function Groups(p: Pattern, s: string, i: nat, m: seq<nat>, singleline: bool): (g: seq<string>)
    requires MatchesAt(p, s, i, m, singleline)
    ensures |g| == GroupCount(p) + 1
    ensures p in {SendTime, ResultTime} ==> IsStamp(g[1])
    ensures p in {TestTypeAbScreening, TestTypeBloodgroup} ==> IsWord(g[1])
    ensures p == ResultAbScreening ==> g[1] != []
    ensures p == ResultBloodgroup ==> g[2] != []
  {
    MatchedBody(p, s, i, m, singleline);
    var j := i + |Prefix(p)|;
    match p
    case Barcode => BarcodeGroups(s, i, j, m[0], singleline)
    case SendTime => StampGroups(s, i, j, m[0], 2)
    case ResultTime => StampGroups(s, i, j, m[2], 1)
    case TestTypeAbScreening => TestTypeGroups(s, i, j, m[0], Marker(p))
    case TestTypeBloodgroup => TestTypeGroups(s, i, j, m[0], Marker(p))
    case ResultAbScreening => ResultAbGroups(s, i, j, m[0], m[1], singleline)
    case ResultBloodgroup => ResultBloodgroupGroups(s, i, j, m[0], m[1], m[2], singleline)
  }

  /** The fourteen digits of a `(\d{14})` capture. */
  predicate IsStamp(t: string) {
    |t| == 14 && forall k :: 0 <= k < 14 ==> IsDigit(t[k])
  }

  /** A `(\w+)` capture. */
  predicate IsWord(t: string) {
    |t| > 0 && forall k :: 0 <= k < |t| ==> IsWordChar(t[k])
  }

  function BarcodeGroups(s: string, i: nat, j: nat, e: nat, singleline: bool): (g: seq<string>)
    requires i <= j && BarcodeMatch(s, j, e, singleline)
    ensures |g| == 2 && |g[0]| == |g[1]| + (j - i) + 1
  {
    [s[i..e + 1], s[j..e]]
  }

  /** A time stamp capture, after the `lead` bars that end at `e`. */
  function StampGroups(s: string, i: nat, j: nat, e: nat, lead: nat): (g: seq<string>)
    requires i <= j <= e && e + lead + 14 <= |s| && DigitsAt(s, e + lead, 14)
    ensures |g| == 2 && IsStamp(g[1])
  {
    [s[i..e + lead + 14], s[e + lead..e + lead + 14]]
  }

  function TestTypeGroups(s: string, i: nat, j: nat, e: nat, marker: string): (g: seq<string>)
    requires i <= j && TestTypeMatch(s, j, e, marker)
    ensures |g| == 2 && IsWord(g[1])
  {
    [s[i..e + |marker|], s[j..e]]
  }

  function ResultAbGroups(s: string, i: nat, j: nat, b: nat, e: nat, singleline: bool): (g: seq<string>)
    requires i <= j && ResultAbMatch(s, j, b, e, singleline)
    ensures |g| == 2 && g[1] != []
  {
    [s[i..e + 1], s[b + 3..e]]
  }

  function ResultBloodgroupGroups(s: string, i: nat, j: nat, b: nat, q: nat, e: nat, singleline: bool): (g: seq<string>)
    requires i <= j && ResultBloodgroupMatch(s, j, b, q, e, singleline)
    ensures |g| == 3 && g[2] != []
  {
    [s[i..e + 1], s[b + 1..q], s[q + 1..e]]
  }

  /** The outcome of Regex.Match: no match, or where it starts, its stops and its groups. */
  datatype MatchResult = NoMatch | Matched(index: nat, stops: seq<nat>, groups: seq<string>)

  /** Regex.Match(input, pattern[, RegexOptions.Singleline]). */
  function RegexMatch(input: string, p: Pattern, singleline: bool): (r: MatchResult)
    ensures r.Matched? ==> |r.groups| == GroupCount(p) + 1 && r.index < |input|
  {
    ScanFirst(p, input, singleline);
    var tries := Attempts(p, input, singleline);
    match Scan(tries, 0)
    case None => NoMatch
    case Some(i) =>
      MatchesInside(p, input, i, tries[i].value, singleline);
      Matched(i, tries[i].value, Groups(p, input, i, tries[i].value, singleline))
  }

  /** Regex.Match reports the first match in backtracking order, with its
      groups, and fails exactly when the pattern matches nowhere. */
  lemma RegexMatchFirst(input: string, p: Pattern, singleline: bool)
    ensures var r := RegexMatch(input, p, singleline);
      (r.NoMatch? <==> forall i: nat, m :: !MatchesAt(p, input, i, m, singleline)) &&
      (r.Matched? ==> IsFirstMatch(p, input, r.index, r.stops, singleline) &&
                      r.groups == Groups(p, input, r.index, r.stops, singleline))
  {
    ScanFirst(p, input, singleline);
  }

  /** There is only one first match: Regex.Match is a function of its input. */
  lemma FirstMatchUnique(p: Pattern, s: string, i: nat, m: seq<nat>, i': nat, m': seq<nat>, singleline: bool)
    requires IsFirstMatch(p, s, i, m, singleline) && IsFirstMatch(p, s, i', m', singleline)
    ensures i == i' && m == m'
  {
  }
}
