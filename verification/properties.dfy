/** Properties of `smartTrim` that relate its steps and its options. */
module TrimProperties {
  import opened Wrappers
  import opened Text
  import opened Punctuation
  import opened Options
  import opened Trimmer

  /** The text is longer than the limit, so it must be shortened. */
  predicate Truncating(str: string, maxLength: int) {
    0 <= maxLength < |str|
  }

  /** When the suffix leaves no room for content the result is the suffix clipped
      to `maxLength` characters; a zero limit gives the empty string. */
  lemma SuffixDoesNotFit(str: string, maxLength: int, o: SmartTrimOptions)
    requires Truncating(str, maxLength)
    requires TrimLength(maxLength, Merge(o)) <= 0
    ensures SmartTrim(str, maxLength, o) == Ok(Merge(o).suffix[..maxLength])
    ensures maxLength == 0 ==> SmartTrim(str, maxLength, o) == Ok("")
    ensures SmartTrim(str, maxLength, o).value <= Merge(o).suffix
  {
  }

  /** With room for content, the result is a prefix of the text no longer than the
      budget, followed by the whole suffix. */
  lemma TruncationShape(str: string, maxLength: int, o: SmartTrimOptions)
    requires Truncating(str, maxLength)
    requires TrimLength(maxLength, Merge(o)) > 0
    ensures var r := SmartTrim(str, maxLength, o).value;
            var suffix := Merge(o).suffix;
            && |suffix| <= |r|
            && r[|r| - |suffix|..] == suffix
            && r[..|r| - |suffix|] <= str
            && |r| - |suffix| <= TrimLength(maxLength, Merge(o))
  {
  }

  /** Whenever the text is shortened, the result ends with the suffix, or is an
      initial part of the suffix when the suffix alone does not fit. */
  lemma SuffixPresence(str: string, maxLength: int, o: SmartTrimOptions)
    requires Truncating(str, maxLength)
    ensures var r := SmartTrim(str, maxLength, o).value;
            var suffix := Merge(o).suffix;
            (|suffix| <= |r| && r[|r| - |suffix|..] == suffix) || r <= suffix
  {
  }

  /** Without the whole-word step and without stripping, the result is exactly the
      first `maxLength - |suffix|` characters plus the suffix, so it fills the limit. */
  lemma ExactCut(str: string, maxLength: int, o: SmartTrimOptions)
    requires Truncating(str, maxLength)
    requires TrimLength(maxLength, Merge(o)) > 0
    requires !Merge(o).preserveWholeWords && Merge(o).preservePunctuation
    ensures SmartTrim(str, maxLength, o) == Ok(str[..TrimLength(maxLength, Merge(o))] + Merge(o).suffix)
    ensures |SmartTrim(str, maxLength, o).value| == maxLength
  {
  }

  /** On the shortening path the character after the cut always exists, so the
      source's test for an empty `charAt` never fires there. */
  lemma NextCharExists(str: string, maxLength: int, o: SmartTrimOptions)
    requires Truncating(str, maxLength)
    requires TrimLength(maxLength, Merge(o)) > 0
    ensures CharAt(str, TrimLength(maxLength, Merge(o))).Some?
  {
  }

  /** The whole-word step keeps the longest cut within the budget that lands on a
      word boundary: the chosen cut is itself a boundary, and any boundary `p <= n`
      is at or before it. */
  lemma WordBackOffLongestBoundary(str: string, n: nat, p: nat)
    requires p <= n <= |str|
    requires AtWordBoundary(str, p)
    ensures AtWordBoundary(str, |WordBackOff(str, n)|)
    ensures p <= |WordBackOff(str, n)|
  {
  }

  /** With the default punctuation handling, the word rule on the shortened text:
      a cut before a space is kept; a mid-word cut backs off to just before the last
      space of the window; a window without a space is kept whole. */
  lemma WordRule(str: string, maxLength: int, o: SmartTrimOptions)
    requires Truncating(str, maxLength)
    requires TrimLength(maxLength, Merge(o)) > 0
    requires Merge(o).preserveWholeWords && Merge(o).preservePunctuation
    ensures var n := TrimLength(maxLength, Merge(o));
            var c := Content(str, n, Merge(o));
            && (str[n] == ' ' ==> c == str[..n])
            && (str[n] != ' ' && ' ' !in str[..n] ==> c == str[..n])
            && (str[n] != ' ' && ' ' in str[..n] ==>
                  c == str[..|c|] && |c| < n && str[|c|] == ' ' &&
                  forall j :: |c| < j < n ==> str[j] != ' ')
  {
  }

  /** With stripping on, the content is the whole-word candidate with its maximal
      trailing run of punctuation removed: only punctuation goes, and what remains
      does not end in punctuation. With stripping off, nothing is removed. */
  lemma PunctuationRule(str: string, maxLength: int, o: SmartTrimOptions)
    requires Truncating(str, maxLength)
    requires TrimLength(maxLength, Merge(o)) > 0
    ensures var n := TrimLength(maxLength, Merge(o));
            var w := WordStage(str, n, Merge(o));
            var c := Content(str, n, Merge(o));
            && (Merge(o).preservePunctuation ==> c == w)
            && (!Merge(o).preservePunctuation ==>
                  && c <= w
                  && (forall i :: |c| <= i < |w| ==> IsPunctuation(w[i]))
                  && (|c| == 0 || !IsPunctuation(c[|c| - 1])))
  {
  }

  /** Stripping the shortened text again changes nothing: the punctuation strip
      leaves no trailing punctuation for a second pass. */
  lemma ContentStripStable(str: string, trimLength: nat, s: Settings)
    requires 0 < trimLength < |str|
    requires !s.preservePunctuation
    ensures StripPunctuation(Content(str, trimLength, s)) == Content(str, trimLength, s)
  {
  }

  /** A mid-word cut backs off to exactly the last space of the window. */
  lemma BackOffToLastSpace(str: string, n: nat, k: nat)
    requires n < |str| && str[n] != ' '
    requires k < n && str[k] == ' '
    requires forall j :: k < j < n ==> str[j] != ' '
    ensures WordBackOff(str, n) == str[..k]
  {
  }

  /** A window with no space at all is kept whole, even when the cut is mid-word. */
  lemma NoSpaceKeepsCut(str: string, n: nat)
    requires n <= |str|
    requires forall j :: 0 <= j < n ==> str[j] != ' '
    ensures WordBackOff(str, n) == str[..n]
  {
  }

  /** Removing punctuation leaves exactly the prefix of length `k` when the rest
      is all punctuation and the prefix does not end in punctuation. */
  lemma StripPunctuationTo(t: string, k: nat)
    requires k <= |t|
    requires forall i :: k <= i < |t| ==> IsPunctuation(t[i])
    requires k == 0 || !IsPunctuation(t[k - 1])
    ensures StripPunctuation(t) == t[..k]
  {
  }

  /** A negative limit fails with the message the source throws. */
  lemma NegativeLengthMessage(str: string, maxLength: int, o: SmartTrimOptions)
    requires maxLength < 0
    ensures SmartTrim(str, maxLength, o).Err?
    ensures Message(SmartTrim(str, maxLength, o).error) == "Second argument must be a non-negative integer"
  {
  }
}
