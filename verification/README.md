# smartTrim in Dafny

A model of `smartTrim` from the `text-smart-trimmer` package (src/index.ts). It truncates a
string to `maxLength` characters, and that count includes a suffix. It prefers to cut between
words and can strip trailing punctuation. The model is a set of pure functions on
`seq<char>`, with lemmas about prefixes, lengths and trailing runs.

Modules: two helper modules first, then the source's declarations in their order
(options, the punctuation pattern, the function), then the properties and examples:

- `Wrappers`: `Option` stands for an absent option field. `Result` stands for a value or a
  thrown error.
- `Text`: the JavaScript string primitives the function uses. `CharAt` models `charAt`,
  `LastIndexOf` models `lastIndexOf`, and `StripTrailing` removes a trailing run of characters
  from a set.
- `Options`: `SmartTrimOptions` with optional fields, the defaults, and the merge of supplied
  options over the defaults.
- `Punctuation`: the character class of `PUNCTUATION_REGEX` and the `replace` that removes
  it. A ghost reference definition follows the regular-expression engine's left-to-right
  search. A lemma proves it removes the same characters as the backward scan.
- `Trimmer`: the whole-word step (`WordBackOff`), the content pipeline (`Content`) and
  `SmartTrim` itself, with the negative-length error as a `Result`.
- `TrimProperties`: lemmas relating the steps and the options.
- `TrimExamples`: the concrete calls of the test suite, with the outputs the code produces.

Where the code and its intended behaviour differ, the model follows the code:

- A mid-word cut whose window holds no space keeps the partial word (src/index.ts:78-80).
  The test at src/index.test.ts:121 expects `"..."` for this case. The code gives
  `"Superca..."`, as `TrimExamples.NoSpaceKeepsPartialWord` states.
- The punctuation class contains no whitespace (src/index.ts:34). So stripping
  `"This is a ,"` leaves `"This is a "`, and the result is `"This is a ..."`. The test at
  src/index.test.ts:99-101 expects `"This is a..."`. `TrimExamples.SpaceBeforeCommaStripped`
  states the code's output.
- The negative-length check runs before the fast path (src/index.ts:50-56). So a negative
  limit is rejected even for an empty text.

## Model

| member | source | states |
|---|---|---|
| Text.CharAt | src/index.ts:73 | `charAt` gives the character exactly when the index is in range, and `''` (here `None`) otherwise |
| Text.LastIndexOf | src/index.ts:77 | `lastIndexOf` is -1 exactly when the character does not occur; otherwise it is an index holding the character with no occurrence after it |
| Text.LastIndexOfUnique | src/index.ts:77 | any index that holds the character and has no occurrence after it is the value of `lastIndexOf` |
| Text.StripTrailing | src/index.ts:85 | the result is a prefix of the input; everything removed is in the set; the result does not end with a character of the set, so the removed run is maximal |
| Text.StripTrailingUnique | src/index.ts:34 | those three conditions determine the stripped string uniquely |
| Text.StripTrailingIdempotent | src/index.ts:85 | stripping an already stripped string changes nothing |
| Text.StripTrailingKeeps | src/index.ts:34 | a string that is empty or does not end with a set character is left unchanged, because the anchored pattern does not match |
| Punctuation.StripPunctuation | src/index.ts:84-86 | the strip keeps a prefix of the candidate; it removes only characters of `.,!?;:'")]}`; what remains does not end in one of them |
| Punctuation.LeftmostMatch | src/index.ts:34 | the engine's first matching start position is at or after where the search begins, is inside the string, and is a position where `[...]+$` matches |
| Punctuation.StripPunctuationIsRegexReplace | src/index.ts:34 | the backward strip equals deleting the leftmost match of `/[.,!?;:'")\]}]+$/`, and leaves the string unchanged when nothing matches |
| Options.Merge | src/index.ts:58-61 | each present option field overrides its default, and each absent one takes it: suffix `"..."`, both flags true |
| Options.MergeFieldsIndependent | src/index.ts:25-29 | each merged field depends only on its own option, so setting one field never changes another |
| Options.MergeRoundTrip | src/index.ts:58-61 | supplying every field reproduces it exactly; supplying none gives the defaults |
| Trimmer.WordBackOff | src/index.ts:72-82 | the kept text is a prefix of the cut; a cut before a space or at the end is kept; a mid-word cut moves back to just before the window's last space, with no space between there and the cut; a window without a space is kept whole |
| Trimmer.WordStage | src/index.ts:70-82 | the candidate after the whole-word step is a prefix of the first `trimLength` characters, and equals them when the flag is off |
| Trimmer.Content | src/index.ts:70-86 | the content before the suffix is a prefix of the text no longer than `maxLength` minus the suffix length |
| Trimmer.SmartTrim | src/index.ts:45-89 | an error exactly when `maxLength < 0`; otherwise the result is at most `maxLength` long; a text that already fits is returned unchanged |
| TrimProperties.NegativeLengthMessage | src/index.ts:50-52 | every negative limit fails, whatever the text and options, and `Trimmer.Message` of that error is the thrown text "Second argument must be a non-negative integer" |
| TrimProperties.SuffixDoesNotFit | src/index.ts:63-68 | when the suffix leaves no room, the result is the suffix clipped to `maxLength`; it is `""` when `maxLength` is 0 |
| TrimProperties.TruncationShape | src/index.ts:70-88 | with room for content, the result ends with the whole suffix, and before it comes a prefix of the text no longer than the budget |
| TrimProperties.SuffixPresence | src/index.ts:63-88 | a shortened result ends with the suffix, or is an initial part of it when the suffix alone does not fit |
| TrimProperties.ExactCut | src/index.ts:70-88 | with the whole-word step off and punctuation kept, the result is exactly the first `maxLength` minus the suffix length characters plus the suffix, so it fills the limit |
| TrimProperties.NextCharExists | src/index.ts:73-74 | on the shortening path the character after the cut always exists, so the `''` test never fires |
| TrimProperties.WordBackOffLongestBoundary | src/index.ts:72-82 | when the window holds a word boundary, the whole-word step keeps the longest cut that ends at one |
| TrimProperties.WordRule | src/index.ts:72-82 | for the shortened text: a cut before a space is kept; a mid-word cut ends just before the last space; a window without a space is kept whole |
| TrimProperties.PunctuationRule | src/index.ts:84-86 | with stripping on, only punctuation is removed from the whole-word candidate, and the run removed is maximal; with stripping off, nothing is removed |
| TrimProperties.ContentStripStable | src/index.ts:84-86 | with stripping on, the content has no trailing punctuation left for a second pass |
| TrimProperties.BackOffToLastSpace | src/index.ts:76-80 | a mid-word cut backs off to exactly the last space of the window |
| TrimProperties.NoSpaceKeepsCut | src/index.ts:78-80 | a window without a space is kept whole |
| TrimProperties.StripPunctuationTo | src/index.ts:84-86 | if the text after position `k` is all punctuation and the text before `k` does not end in punctuation, the strip leaves exactly the first `k` characters |
| TrimExamples.ShortTextUnchanged | src/index.ts:54-56 | `"Hello world"` at 20, `""` at 10 and a text exactly at its limit come back unchanged |
| TrimExamples.DefaultTrimAt20 | src/index.test.ts:9-12 | the long sentence at 20 gives `"This is a long..."` |
| TrimExamples.DefaultTrimAt19 | src/index.test.ts:17-18 | the long sentence at 19 gives `"This is a long..."` |
| TrimExamples.WholeWordsOff | src/index.test.ts:20-23 | with whole words off, it gives `"This is a long s..."` |
| TrimExamples.CustomSuffix | src/index.test.ts:26-31 | with suffix `" [more]"` at 19, it gives `"This is a [more]"` |
| TrimExamples.EmptySuffix | src/index.test.ts:33-36 | with an empty suffix at 15, it gives `"This is a long"` |
| TrimExamples.PunctuationKept | src/index.test.ts:41-42 | by default the comma stays: `"This is a sentence,..."` |
| TrimExamples.PunctuationStripped | src/index.test.ts:44-47 | with stripping on, the comma goes: `"This is a sentence..."` |
| TrimExamples.LongSuffixClipped | src/index.test.ts:50-57 | the suffix `"... read more"` is clipped to `"... r"` at 5 and to `"..."` at 3 |
| TrimExamples.CutAtSpaceKept | src/index.test.ts:74-77 | a cut that lands before a space is kept: `"One two..."` |
| TrimExamples.CutMidWordBacksOff | src/index.test.ts:79-80 | a mid-word cut backs off: `"One..."` |
| TrimExamples.WhitespaceOnly | src/index.test.ts:87-89 | five spaces at 3 give `"..."` |
| TrimExamples.PunctuationOnly | src/index.test.ts:91-95 | `"!!!???..."` at 5 with stripping on gives `"..."` |
| TrimExamples.SpaceBeforeCommaKept | src/index.test.ts:102-104 | with punctuation kept, the result is `"This is a ,..."` |
| TrimExamples.SpaceBeforeCommaStripped | src/index.ts:34 | with stripping on, the space before the comma stays, giving `"This is a ..."` (the test at src/index.test.ts:99-101 expects otherwise) |
| TrimExamples.TrailingWhitespace | src/index.test.ts:107-112 | `"This is a test , "` at 13 gives `"This is a..."` |
| TrimExamples.NoSpaceKeepsPartialWord | src/index.ts:76-80 | a spaceless window keeps its partial word, giving `"Superca..."` (the test at src/index.test.ts:121 expects `"..."`) |
| TrimExamples.NoSpaceWholeWordsOff | src/index.test.ts:122-124 | with whole words off, the result is `"Superca..."` |
| TrimExamples.StripAfterBackOff | src/index.ts:72-86 | the strip runs after the back-off: `"Hi, there"` at 7 gives `"Hi..."`, although the plain cut `"Hi, "` has nothing to strip |
| TrimExamples.NegativeLengthRejected | src/index.ts:50-52 | limits -1 and -5 are rejected, -5 with the message the test at src/index.test.ts:168-170 expects; 0 gives `""`; 10 returns `"Hello"` |

## Left out

- The check that the text is a string (src/index.ts:46-48): the Dafny type `string` rules it out.
- The rejection of a non-number or fractional `maxLength` (src/index.ts:50): `maxLength` is an
  `int`, so only the negative case remains and is modelled.
- Thrown errors: a `TypeError` becomes `Err(NegativeMaxLength)`. `Trimmer.Message` gives its
  message text; the exception class itself is not modelled.
- Character encoding: JavaScript counts UTF-16 code units. Here text is an abstract
  `seq<char>`, and nothing is claimed about surrogate pairs or emoji. The emoji test and the
  test with a non-ASCII suffix are not modelled.
- Loose option spreading (src/index.ts:58-61): an explicit `undefined` field or a
  wrongly-typed value is not modelled. Options are optional fields with per-field defaults, and
  an absent options argument is `Options.NoOptions`.
- `substring` clamping: every `substring` call in the source is in range on the path that
  runs it, and the model proves those bounds. So it uses plain slices and does not model
  clamping or argument swapping.
- The regular-expression engine: `PUNCTUATION_REGEX` is modelled as a trailing-run strip. A
  ghost search over start positions serves as its reference meaning.
- Determinism needs no lemma: every member is a pure function.
- jest.config.cjs is test-runner configuration only.
