/** Plain-text helpers shared by the editor core: lines as sequences of
    characters, the Unicode character classes the motions ask about, the
    scanning loops of the motions, substring search, trimming and line
    splitting. */
module Text {
  import opened Basics

  /** One line of a buffer: its characters (Unicode scalar values), without a
      line terminator. */
  type Line = seq<char>

  /** The character classes of the Rust standard library that the editor
      relies on, `char::is_alphanumeric` and `char::is_whitespace`. Their
      Unicode tables are not modelled; the model is stated for any pair. */
  datatype Classifier = Classifier(isAlphanumeric: char -> bool, isWhitespace: char -> bool) {
    /** The one fact about the two tables that some properties need: an
        alphanumeric character is never whitespace. */
    predicate Coherent() {
      forall c :: isAlphanumeric(c) ==> !isWhitespace(c)
    }
  }

  /** The character sets the scanning loops test. */
  datatype CharSet = Alphanumeric | Whitespace | Punctuation | NonWhitespace | NonAlphanumeric

  predicate In(cls: Classifier, k: CharSet, c: char) {
    match k
    case Alphanumeric => cls.isAlphanumeric(c)
    case Whitespace => cls.isWhitespace(c)
    case Punctuation => !cls.isAlphanumeric(c) && !cls.isWhitespace(c)
    case NonWhitespace => !cls.isWhitespace(c)
    case NonAlphanumeric => !cls.isAlphanumeric(c)
  }

  /** Index `i` holds a character of set `k` (false past the end, like
      `chars.get(i).map_or(false, ...)`). */
  predicate HasAt(cls: Classifier, k: CharSet, chars: Line, i: nat) {
    i < |chars| && In(cls, k, chars[i])
  }

  /** The loop `while pos < len && k(chars[pos]) { pos += 1 }`: the first
      index at or after `pos` that does not hold a `k` character. */
  function SkipForward(cls: Classifier, k: CharSet, chars: Line, pos: nat): (r: nat)
    decreases |chars| - pos
    ensures pos <= r
    ensures r == pos || r <= |chars|
    ensures forall i | pos <= i < r :: In(cls, k, chars[i])
    ensures !HasAt(cls, k, chars, r)
  {
    if pos < |chars| && In(cls, k, chars[pos]) then SkipForward(cls, k, chars, pos + 1) else pos
  }

  /** The loop `while pos > 0 && k(chars[pos]) { pos -= 1 }`. */
  function SkipBackward(cls: Classifier, k: CharSet, chars: Line, pos: nat): (r: nat)
    ensures r <= pos
    ensures forall i | r < i <= pos :: HasAt(cls, k, chars, i)
    ensures r == 0 || !HasAt(cls, k, chars, r)
  {
    if pos > 0 && HasAt(cls, k, chars, pos) then SkipBackward(cls, k, chars, pos - 1) else pos
  }

  /** The loop `while pos > 0 && k(chars[pos - 1]) { pos -= 1 }`: the start of
      the run of `k` characters that ends just before `pos`. */
  function SkipRunBackward(cls: Classifier, k: CharSet, chars: Line, pos: nat): (r: nat)
    ensures r <= pos
    ensures forall i | r <= i < pos :: HasAt(cls, k, chars, i)
    ensures r == 0 || !HasAt(cls, k, chars, r - 1)
  {
    if pos > 0 && HasAt(cls, k, chars, pos - 1) then SkipRunBackward(cls, k, chars, pos - 1) else pos
  }

  // ---------------------------------------------------------------------
  // Plain substring search (`str::find` / `str::rfind` with a string pattern)
  // ---------------------------------------------------------------------

  /** `pat` occurs in `s` starting at index `i`. */
  predicate MatchAt(s: Line, pat: Line, i: nat) {
    i + |pat| <= |s| && s[i..i + |pat|] == pat
  }

  /** Leftmost occurrence of `pat` at or after index `i`. */
  function FindFrom(s: Line, pat: Line, i: nat): (r: Option<nat>)
    decreases |s| - i
    ensures r.Some? ==> i <= r.value && MatchAt(s, pat, r.value)
    ensures r.Some? ==> forall j | i <= j < r.value :: !MatchAt(s, pat, j)
    ensures r.None? ==> forall j | i <= j :: !MatchAt(s, pat, j)
  {
    if i + |pat| > |s| then None
    else if s[i..i + |pat|] == pat then Some(i)
    else FindFrom(s, pat, i + 1)
  }

  /** `s.find(pat)`: the leftmost occurrence of `pat` in `s`. */
  function Find(s: Line, pat: Line): (r: Option<nat>)
    ensures r.Some? ==> MatchAt(s, pat, r.value)
    ensures r.Some? ==> forall j: nat | j < r.value :: !MatchAt(s, pat, j)
    ensures r.None? ==> forall j: nat :: !MatchAt(s, pat, j)
  {
    FindFrom(s, pat, 0)
  }

  /** Rightmost occurrence of `pat` starting at or before index `i`. */
  function RFindFrom(s: Line, pat: Line, i: nat): (r: Option<nat>)
    ensures r.Some? ==> r.value <= i && MatchAt(s, pat, r.value)
    ensures r.Some? ==> forall j | r.value < j <= i :: !MatchAt(s, pat, j)
    ensures r.None? ==> forall j: nat | j <= i :: !MatchAt(s, pat, j)
  {
    if MatchAt(s, pat, i) then Some(i)
    else if i == 0 then None
    else RFindFrom(s, pat, i - 1)
  }

  /** `s.rfind(pat)`: the rightmost occurrence of `pat` in `s`. */
  function RFind(s: Line, pat: Line): (r: Option<nat>)
    ensures r.Some? ==> MatchAt(s, pat, r.value)
    ensures r.Some? ==> forall j: nat | r.value < j :: !MatchAt(s, pat, j)
    ensures r.None? ==> forall j: nat :: !MatchAt(s, pat, j)
  {
    RFindFrom(s, pat, |s|)
  }

  predicate StartsWith(s: Line, prefix: Line) {
    |prefix| <= |s| && s[..|prefix|] == prefix
  }

  // ---------------------------------------------------------------------
  // Trimming (`str::trim`, which strips `char::is_whitespace` characters)
  // ---------------------------------------------------------------------

  function TrimStart(cls: Classifier, s: Line): (r: Line)
    ensures |r| <= |s| && r == s[|s| - |r|..]
    ensures forall i | 0 <= i < |s| - |r| :: cls.isWhitespace(s[i])
    ensures r == [] || !cls.isWhitespace(r[0])
  {
    if |s| > 0 && cls.isWhitespace(s[0]) then TrimStart(cls, s[1..]) else s
  }

  function TrimEnd(cls: Classifier, s: Line): (r: Line)
    ensures |r| <= |s| && r == s[..|r|]
    ensures forall i | |r| <= i < |s| :: cls.isWhitespace(s[i])
    ensures r == [] || !cls.isWhitespace(r[|r| - 1])
  {
    if |s| > 0 && cls.isWhitespace(s[|s| - 1]) then TrimEnd(cls, s[..|s| - 1]) else s
  }

  /** Every character of `t` is whitespace. */
  predicate AllWhitespace(cls: Classifier, t: Line) {
    forall k | 0 <= k < |t| :: cls.isWhitespace(t[k])
  }

  /** `r` is `s` with some whitespace cut from each end. */
  predicate CutFromEnds(cls: Classifier, s: Line, r: Line) {
    exists i, j | 0 <= i <= j <= |s| ::
      r == s[i..j] && AllWhitespace(cls, s[..i]) && AllWhitespace(cls, s[j..])
  }

  /** `str::trim`: the surrounding whitespace goes, and only it. */
  function Trim(cls: Classifier, s: Line): (r: Line)
    ensures r == [] || (!cls.isWhitespace(r[0]) && !cls.isWhitespace(r[|r| - 1]))
    ensures CutFromEnds(cls, s, r)
  {
    var t := TrimStart(cls, s);
    var r := TrimEnd(cls, t);
    CutAtWhitespace(cls, s, r, |s| - |t|, |s| - |t| + |r|);
    r
  }

  /** Cutting `s` to `s[i..j]` where everything outside is whitespace. */
  lemma CutAtWhitespace(cls: Classifier, s: Line, r: Line, i: nat, j: nat)
    requires i <= j <= |s| && r == s[i..j]
    requires forall k | 0 <= k < i :: cls.isWhitespace(s[k])
    requires forall k | j <= k < |s| :: cls.isWhitespace(s[k])
    ensures CutFromEnds(cls, s, r)
  {
    assert AllWhitespace(cls, s[..i]) && AllWhitespace(cls, s[j..]);
  }

  // ---------------------------------------------------------------------
  // Line splitting (`str::lines`)
  // ---------------------------------------------------------------------

  /** Removes the '\r' of a "\r\n" terminator. */
  function StripCarriageReturn(s: Line): (r: Line)
    ensures |s| > 0 && s[|s| - 1] == '\r' ==> s == r + ['\r']
    ensures !(|s| > 0 && s[|s| - 1] == '\r') ==> r == s
  {
    if |s| > 0 && s[|s| - 1] == '\r' then s[..|s| - 1] else s
  }

  /** `text.lines()`: split at '\n', dropping a '\r' just before each '\n';
      a final terminator yields no extra empty line and the empty text
      yields no line at all. */
  function Lines(text: seq<char>): (ls: seq<Line>)
    decreases |text|
    ensures forall k | 0 <= k < |ls| :: '\n' !in ls[k]
    ensures text == [] <==> ls == []
  {
    if text == [] then []
    else match Find(text, ['\n'])
      case None =>
        assert forall j | 0 <= j < |text| :: !MatchAt(text, ['\n'], j);
        assert '\n' !in text by {
          forall j | 0 <= j < |text| ensures text[j] != '\n' {
            assert !MatchAt(text, ['\n'], j);
            assert text[j..j + 1] == [text[j]];
          }
        }
        [text]
      case Some(i) =>
        assert '\n' !in text[..i] by {
          forall j | 0 <= j < i ensures text[j] != '\n' {
            assert !MatchAt(text, ['\n'], j);
            assert text[j..j + 1] == [text[j]];
          }
        }
        [StripCarriageReturn(text[..i])] + Lines(text[i + 1..])
  }
}
