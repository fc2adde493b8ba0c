/** String primitives of JavaScript that the trimmer relies on, on `seq<char>`. */
module Text {
  import opened Wrappers

  /** `s.charAt(i)`: the character at `i`, or `None` where JavaScript yields `''`. */
  function CharAt(s: string, i: nat): (r: Option<char>)
    ensures r.Some? <==> i < |s|
    ensures r.Some? ==> r.value == s[i]
  {
    if i < |s| then Some(s[i]) else None
  }

  /** `s.lastIndexOf(c)`: the highest index holding `c`, or -1 when `c` does not occur. */
  function LastIndexOf(s: string, c: char): (r: int)
    ensures r == -1 <==> c !in s
    ensures r != -1 ==> 0 <= r < |s| && s[r] == c
    ensures r != -1 ==> forall j :: r < j < |s| ==> s[j] != c
  {
    if |s| == 0 then -1
    else if s[|s| - 1] == c then |s| - 1
    else
      assert s == s[..|s| - 1] + [s[|s| - 1]];
      LastIndexOf(s[..|s| - 1], c)
  }

  /** The contract of `LastIndexOf` pins its result down: an index holding `c`
      with no `c` after it is the last index of `c`. */
  lemma LastIndexOfUnique(s: string, c: char, k: nat)
    requires k < |s| && s[k] == c
    requires forall j :: k < j < |s| ==> s[j] != c
    ensures LastIndexOf(s, c) == k
  {
  }

  /** Every character of `t` belongs to `chars`. */
  predicate AllIn(t: string, chars: set<char>) {
    forall i :: 0 <= i < |t| ==> t[i] in chars
  }

  /** What a trailing strip must satisfy: a prefix of `s`, cut where only `chars` follow,
      and not ending in one of `chars`. */
  predicate IsTrailingStrip(s: string, chars: set<char>, r: string) {
    && r <= s
    && AllIn(s[|r|..], chars)
    && (|r| == 0 || r[|r| - 1] !in chars)
  }

  /** Removes the maximal trailing run of characters drawn from `chars`. */
  function StripTrailing(s: string, chars: set<char>): (r: string)
    ensures IsTrailingStrip(s, chars, r)
  {
    if |s| == 0 || s[|s| - 1] !in chars then s
    else StripTrailing(s[..|s| - 1], chars)
  }

  /** The trailing strip is the only string meeting that description. */
  lemma StripTrailingUnique(s: string, chars: set<char>, r: string)
    requires IsTrailingStrip(s, chars, r)
    ensures r == StripTrailing(s, chars)
  {
  }

  /** Stripping twice removes nothing more. */
  lemma StripTrailingIdempotent(s: string, chars: set<char>)
    ensures StripTrailing(StripTrailing(s, chars), chars) == StripTrailing(s, chars)
  {
  }

  /** A string that does not end in one of `chars` is left unchanged. */
  lemma StripTrailingKeeps(s: string, chars: set<char>)
    requires |s| == 0 || s[|s| - 1] !in chars
    ensures StripTrailing(s, chars) == s
  {
  }
}
