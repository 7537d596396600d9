/** Character classes and the scanning primitives that the seven fixed
    regular expressions of the extractor are built from. Positions are
    indices into a string; a match of a pattern is described by the start
    position and the positions its quantifiers stop at. */
module Text {

  datatype Option<T> = None | Some(value: T)

  /** `\d`, restricted to the ASCII digits (see README). */
  predicate IsDigit(c: char) {
    '0' <= c <= '9'
  }

  /** `\w`, restricted to ASCII letters, ASCII digits and '_' (see README).
      What the proofs rely on is only that '^' and '|' are not word characters. */
  predicate IsWordChar(c: char) {
    'a' <= c <= 'z' || 'A' <= c <= 'Z' || '0' <= c <= '9' || c == '_'
  }

  /** `.`: any character under RegexOptions.Singleline, any but '\n' otherwise. */
  predicate IsDot(c: char, singleline: bool) {
    singleline || c != '\n'
  }

  /** The literal `lit` occurs in `s` at position `i`. */
  predicate LitAt(s: string, i: nat, lit: string) {
    i + |lit| <= |s| && s[i..i + |lit|] == lit
  }

  /** `.*` (in either mode) can consume exactly s[lo..hi]. */
  predicate AllDot(s: string, lo: nat, hi: nat, singleline: bool) {
    lo <= hi <= |s| && forall k :: lo <= k < hi ==> IsDot(s[k], singleline)
  }

  /** `\w*` can consume exactly s[lo..hi]. */
  predicate AllWord(s: string, lo: nat, hi: nat) {
    lo <= hi <= |s| && forall k :: lo <= k < hi ==> IsWordChar(s[k])
  }

  /** `\d{n}` matches at position i. */
  predicate DigitsAt(s: string, i: nat, n: nat) {
    i + n <= |s| && forall k :: i <= k < i + n ==> IsDigit(s[k])
  }

  /** What a lazy or greedy `.*` must be followed by: a literal, or a
      literal followed by the fourteen digits of a `(\d{14})` time stamp. */
  datatype Anchor = Exactly(lit: string) | Stamp(lead: string)

  predicate AnchorAt(s: string, k: nat, a: Anchor) {
    match a
    case Exactly(lit) => LitAt(s, k, lit)
    case Stamp(lead) => LitAt(s, k, lead) && DigitsAt(s, k + |lead|, 14)
  }

  lemma LitAtChar(s: string, i: nat, lit: string, j: nat)
    requires LitAt(s, i, lit) && j < |lit|
    ensures s[i + j] == lit[j]
  {
  }

  /** A literal without '\n' is consumed by `.` in either mode. */
  lemma LitAtIsDot(s: string, i: nat, lit: string, singleline: bool)
    requires LitAt(s, i, lit)
    requires forall j :: 0 <= j < |lit| ==> lit[j] != '\n'
    ensures AllDot(s, i, i + |lit|, singleline)
  {
  }

  /** Two adjacent runs of dots, with one dot character between them, form one run. */
  lemma AllDotJoin(s: string, lo: nat, mid: nat, hi: nat, singleline: bool)
    requires AllDot(s, lo, mid, singleline) && mid < |s| && IsDot(s[mid], singleline)
    requires AllDot(s, mid + 1, hi, singleline)
    ensures AllDot(s, lo, hi, singleline)
  {
  }

  lemma AllDotSub(s: string, lo: nat, hi: nat, lo': nat, hi': nat, singleline: bool)
    requires AllDot(s, lo, hi, singleline) && lo <= lo' <= hi' <= hi
    ensures AllDot(s, lo', hi', singleline)
  {
  }

  /** The first position k >= from at which `a` occurs and up to which
      `.*?` can stretch: the stop of a lazy `.*?` followed by `a`. */
  function Next(s: string, from: nat, a: Anchor, singleline: bool): (r: Option<nat>)
    requires from <= |s|
    ensures r.Some? ==> AllDot(s, from, r.value, singleline) && AnchorAt(s, r.value, a)
    ensures r.Some? ==> forall k :: from <= k < r.value ==> !AnchorAt(s, k, a)
    ensures r.None? ==> forall k :: AllDot(s, from, k, singleline) ==> !AnchorAt(s, k, a)
    decreases |s| - from
  {
    if AnchorAt(s, from, a) then Some(from)
    else if from < |s| && IsDot(s[from], singleline) then
      var r := Next(s, from + 1, a, singleline);
      assert forall k :: from < k && AllDot(s, from, k, singleline) ==> AllDot(s, from + 1, k, singleline);
      r
    else
      assert forall k :: AllDot(s, from, k, singleline) ==> k == from;
      None
  }

  /** The last position in [lo, hi] at which `a` occurs: the stop of a
      greedy `.*` confined to s[lo..hi] and followed by `a`. */
  function Last(s: string, lo: nat, hi: nat, a: Anchor): (r: Option<nat>)
    requires lo <= hi <= |s|
    ensures r.Some? ==> lo <= r.value <= hi && AnchorAt(s, r.value, a)
    ensures r.Some? ==> forall k :: r.value < k <= hi ==> !AnchorAt(s, k, a)
    ensures r.None? ==> forall k :: lo <= k <= hi ==> !AnchorAt(s, k, a)
    decreases hi - lo
  {
    if AnchorAt(s, hi, a) then Some(hi)
    else if hi == lo then None
    else Last(s, lo, hi - 1, a)
  }

  /** The farthest a `.*` started at `from` can reach. */
  function DotEnd(s: string, from: nat, singleline: bool): (r: nat)
    requires from <= |s|
    ensures AllDot(s, from, r, singleline)
    ensures forall k: nat :: AllDot(s, from, k, singleline) ==> k <= r
    decreases |s| - from
  {
    if from < |s| && IsDot(s[from], singleline) then
      var r := DotEnd(s, from + 1, singleline);
      assert forall k :: from < k && AllDot(s, from, k, singleline) ==> AllDot(s, from + 1, k, singleline);
      r
    else
      assert forall k :: AllDot(s, from, k, singleline) ==> k == from;
      from
  }

  /** The farthest a `\w*` started at `from` can reach. */
  function WordEnd(s: string, from: nat): (r: nat)
    requires from <= |s|
    ensures AllWord(s, from, r)
    ensures forall k: nat :: AllWord(s, from, k) ==> k <= r
    decreases |s| - from
  {
    if from < |s| && IsWordChar(s[from]) then
      var r := WordEnd(s, from + 1);
      assert forall k :: from < k && AllWord(s, from, k) ==> AllWord(s, from + 1, k);
      r
    else
      assert forall k :: AllWord(s, from, k) ==> k == from;
      from
  }

  /** A lazy `.*?` followed by `a` stops at the first place it can: no later than any stop k it could reach. */
  lemma NextAtMost(s: string, from: nat, a: Anchor, singleline: bool, k: nat)
    requires from <= |s| && AllDot(s, from, k, singleline) && AnchorAt(s, k, a)
    ensures Next(s, from, a, singleline).Some? && Next(s, from, a, singleline).value <= k
  {
  }
}
