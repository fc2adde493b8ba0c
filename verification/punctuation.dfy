/** The trailing-punctuation pattern `/[.,!?;:'")\]}]+$/` and its removal. */
module Punctuation {
  import opened Wrappers
  import opened Text

  /** The characters of the pattern's character class. */
  const PunctuationChars: set<char> := {'.', ',', '!', '?', ';', ':', '\'', '"', ')', ']', '}'}

  predicate IsPunctuation(c: char) {
    c in PunctuationChars
  }

  /** `t.replace(PUNCTUATION_REGEX, '')`, computed as a backward scan. */
  function StripPunctuation(t: string): (r: string)
    ensures r <= t
    ensures forall i :: |r| <= i < |t| ==> IsPunctuation(t[i])
    ensures |r| == 0 || !IsPunctuation(r[|r| - 1])
  {
    var r := StripTrailing(t, PunctuationChars);
    assert forall i :: |r| <= i < |t| ==> t[i] == t[|r|..][i - |r|];
    r
  }

  // ---------------------------------------------------------------------------
  // Reference semantics of the regular expression. A JavaScript `replace` with a
  // non-global pattern removes the leftmost match, if any. The pattern
  // `[class]+$` matches at position `i` exactly when the rest of the string from
  // `i` is non-empty and made only of class characters; the engine tries the
  // start positions from left to right.

  /** The pattern matches starting at position `i`. */
  ghost predicate MatchesAt(t: string, i: nat) {
    i < |t| && AllIn(t[i..], PunctuationChars)
  }

  /** The first start position at or after `i` where the pattern matches. */
  ghost function LeftmostMatch(t: string, i: nat): (r: Option<nat>)
    requires i <= |t|
    ensures r.Some? ==> i <= r.value < |t| && MatchesAt(t, r.value)
    decreases |t| - i
  {
    if i == |t| then None
    else if MatchesAt(t, i) then Some(i)
    else LeftmostMatch(t, i + 1)
  }

  /** The string with the leftmost match deleted; unchanged when there is none. */
  ghost function RegexReplace(t: string): string {
    match LeftmostMatch(t, 0)
    case None => t
    case Some(i) => t[..i]
  }

  lemma {:induction false} LeftmostMatchIs(t: string, i: nat, k: nat)
    requires i <= k
    requires MatchesAt(t, k)
    requires forall j :: i <= j < k ==> !MatchesAt(t, j)
    ensures LeftmostMatch(t, i) == Some(k)
    decreases k - i
  {
    if i < k {
      LeftmostMatchIs(t, i + 1, k);
    }
  }

  lemma NoMatchFrom(t: string, i: nat)
    requires i <= |t|
    requires forall j :: i <= j < |t| ==> !MatchesAt(t, j)
    ensures LeftmostMatch(t, i) == None
  {
  }

  /** The backward scan removes exactly what the regular expression removes. */
  lemma StripPunctuationIsRegexReplace(t: string)
    ensures StripPunctuation(t) == RegexReplace(t)
  {
    var r := StripPunctuation(t);
    var k := |r|;
    forall j | 0 <= j < k && j < |t|
      ensures !MatchesAt(t, j)
    {
      assert t[j..][k - 1 - j] == t[k - 1] == r[k - 1];
    }
    if k < |t| {
      assert AllIn(t[k..], PunctuationChars) by {
        forall i | 0 <= i < |t[k..]| ensures t[k..][i] in PunctuationChars {
          assert t[k..][i] == t[k + i];
        }
      }
      LeftmostMatchIs(t, 0, k);
      assert t[..k] == r;
    } else {
      assert r == t;
      NoMatchFrom(t, 0);
    }
  }
}
