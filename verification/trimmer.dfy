/** `smartTrim`: truncate a string to `maxLength` characters, suffix included. */
module Trimmer {
  import opened Wrappers
  import opened Text
  import opened Punctuation
  import opened Options

  /** The one failure left once typing rules out a non-string text and a
      non-integer length. */
  datatype TrimError = NegativeMaxLength

  function Message(e: TrimError): string {
    match e
    case NegativeMaxLength => "Second argument must be a non-negative integer"
  }

  /** A cut after `p` characters lands between words: at the end, or just before a space. */
  predicate AtWordBoundary(str: string, p: nat)
    requires p <= |str|
  {
    p == |str| || str[p] == ' '
  }

  /** The whole-word step: the first `n` characters, backed off to the last
      space when the character after them continues a word. When the window
      holds no space the cut is kept as it is. */
  function WordBackOff(str: string, n: nat): (c: string)
    requires n <= |str|
    ensures c <= str[..n]
    ensures AtWordBoundary(str, n) ==> c == str[..n]
    ensures !AtWordBoundary(str, n) && ' ' !in str[..n] ==> c == str[..n]
    ensures !AtWordBoundary(str, n) && ' ' in str[..n] ==>
              |c| < n && str[|c|] == ' ' && forall j :: |c| < j < n ==> str[j] != ' '
  {
    var cut := str[..n];
    var next := CharAt(str, n);
    var isWordCutInMiddle := next.Some? && next.value != ' ';
    if isWordCutInMiddle then
      var lastSpace := LastIndexOf(cut, ' ');
      if lastSpace != -1 then cut[..lastSpace] else cut
    else cut
  }

  /** The content budget: the limit less the room the suffix takes. */
  function TrimLength(maxLength: int, s: Settings): int {
    maxLength - |s.suffix|
  }

  /** The content kept before the suffix, for a budget `trimLength` that is
      positive and shorter than the text: the cut, then the whole-word step,
      then the punctuation strip. */
  function Content(str: string, trimLength: nat, s: Settings): (c: string)
    requires 0 < trimLength < |str|
    ensures c <= str
    ensures |c| <= trimLength
  {
    var worded := WordStage(str, trimLength, s);
    if !s.preservePunctuation then StripPunctuation(worded) else worded
  }

  /** The candidate after the cut and, when enabled, the whole-word step. */
  function WordStage(str: string, trimLength: nat, s: Settings): (w: string)
    requires trimLength <= |str|
    ensures w <= str[..trimLength]
    ensures !s.preserveWholeWords ==> w == str[..trimLength]
  {
    var cut := str[..trimLength];
    if s.preserveWholeWords then WordBackOff(str, trimLength) else cut
  }

  /** `smartTrim(str, maxLength, options)`. */
  function SmartTrim(str: string, maxLength: int, options: SmartTrimOptions): (r: Result<string, TrimError>)
    ensures r.Err? <==> maxLength < 0
    ensures r.Err? ==> r.error == NegativeMaxLength
    ensures r.Ok? ==> |r.value| <= maxLength
    ensures 0 <= maxLength && |str| <= maxLength ==> r == Ok(str)
  {
    if maxLength < 0 then Err(NegativeMaxLength)
    else if |str| <= maxLength then Ok(str)
    else
      var s := Merge(options);
      var trimLength := TrimLength(maxLength, s);
      if trimLength <= 0 then Ok(s.suffix[..maxLength])
      else Ok(Content(str, trimLength, s) + s.suffix)
  }
}
