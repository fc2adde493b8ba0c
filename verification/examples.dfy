/** Concrete calls of `smartTrim` and the outputs the model gives for them. */
module TrimExamples {
  import opened Wrappers
  import opened Options
  import opened Punctuation
  import opened Trimmer
  import opened TrimProperties

  const Sentence: string := "This is a long sentence that needs to be trimmed"
  const Commas: string := "This is a sentence, Another sentence follows."
  const Spaced: string := "This is a , test , "
  const LongWord: string := "Supercalifragilisticexpialidocious"

  function WithSuffix(suffix: string): SmartTrimOptions {
    SmartTrimOptions(Some(suffix), None, None)
  }

  function WithWholeWords(b: bool): SmartTrimOptions {
    SmartTrimOptions(None, Some(b), None)
  }

  function WithPunctuation(b: bool): SmartTrimOptions {
    SmartTrimOptions(None, None, Some(b))
  }

  /** `head` is the start of `str`, checked character by character. */
  lemma PrefixIs(str: string, head: string)
    requires |head| <= |str|
    requires forall i :: 0 <= i < |head| ==> str[i] == head[i]
    ensures str[..|head|] == head
  {
  }

  /** On the shortening path with room for content, the result is the content
      followed by the suffix. */
  lemma Shortened(str: string, maxLength: int, o: SmartTrimOptions, content: string)
    requires Truncating(str, maxLength) && TrimLength(maxLength, Merge(o)) > 0
    requires Content(str, TrimLength(maxLength, Merge(o)), Merge(o)) == content
    ensures SmartTrim(str, maxLength, o) == Ok(content + Merge(o).suffix)
  {
  }

  lemma ShortTextUnchanged()
    ensures SmartTrim("Hello world", 20, NoOptions) == Ok("Hello world")
    ensures SmartTrim("", 10, NoOptions) == Ok("")
    ensures SmartTrim("Perfect length", 14, NoOptions) == Ok("Perfect length")
  {
  }

  lemma DefaultTrimAt20()
    ensures SmartTrim(Sentence, 20, NoOptions) == Ok("This is a long...")
  {
    BackOffToLastSpace(Sentence, 17, 14);
    PrefixIs(Sentence, "This is a long");
    Shortened(Sentence, 20, NoOptions, "This is a long");
    assert "This is a long" + "..." == "This is a long...";
  }

  lemma DefaultTrimAt19()
    ensures SmartTrim(Sentence, 19, NoOptions) == Ok("This is a long...")
  {
    BackOffToLastSpace(Sentence, 16, 14);
    PrefixIs(Sentence, "This is a long");
    Shortened(Sentence, 19, NoOptions, "This is a long");
    assert "This is a long" + "..." == "This is a long...";
  }

  lemma WholeWordsOff()
    ensures SmartTrim(Sentence, 19, WithWholeWords(false)) == Ok("This is a long s...")
  {
    PrefixIs(Sentence, "This is a long s");
    Shortened(Sentence, 19, WithWholeWords(false), "This is a long s");
    assert "This is a long s" + "..." == "This is a long s...";
  }

  lemma CustomSuffix()
    ensures SmartTrim(Sentence, 19, WithSuffix(" [more]")) == Ok("This is a [more]")
  {
    var s := Merge(WithSuffix(" [more]"));
    assert s == Settings(" [more]", true, true) && TrimLength(19, s) == 12;
    BackOffToLastSpace(Sentence, 12, 9);
    PrefixIs(Sentence, "This is a");
    Shortened(Sentence, 19, WithSuffix(" [more]"), "This is a");
    assert "This is a" + " [more]" == "This is a [more]";
  }

  lemma EmptySuffix()
    ensures SmartTrim(Sentence, 15, WithSuffix("")) == Ok("This is a long")
  {
    BackOffToLastSpace(Sentence, 15, 14);
    PrefixIs(Sentence, "This is a long");
    Shortened(Sentence, 15, WithSuffix(""), "This is a long");
    assert "This is a long" + "" == "This is a long";
  }

  lemma PunctuationKept()
    ensures SmartTrim(Commas, 22, NoOptions) == Ok("This is a sentence,...")
  {
    assert Commas[19] == ' ';
    PrefixIs(Commas, "This is a sentence,");
    Shortened(Commas, 22, NoOptions, "This is a sentence,");
    assert "This is a sentence," + "..." == "This is a sentence,...";
  }

  lemma PunctuationStripped()
    ensures SmartTrim(Commas, 22, WithPunctuation(false)) == Ok("This is a sentence...")
  {
    assert Commas[19] == ' ';
    PrefixIs(Commas, "This is a sentence,");
    StripPunctuationTo("This is a sentence,", 18);
    Shortened(Commas, 22, WithPunctuation(false), "This is a sentence");
    assert "This is a sentence" + "..." == "This is a sentence...";
  }

  lemma LongSuffixClipped()
    ensures SmartTrim("Hello world", 5, WithSuffix("... read more")) == Ok("... r")
    ensures SmartTrim("Hello world", 3, WithSuffix("... read more")) == Ok("...")
  {
    SuffixDoesNotFit("Hello world", 5, WithSuffix("... read more"));
    PrefixIs("... read more", "... r");
    SuffixDoesNotFit("Hello world", 3, WithSuffix("... read more"));
    PrefixIs("... read more", "...");
  }

  lemma CutAtSpaceKept()
    ensures SmartTrim("One two three four", 10, NoOptions) == Ok("One two...")
  {
    PrefixIs("One two three four", "One two");
    Shortened("One two three four", 10, NoOptions, "One two");
    assert "One two" + "..." == "One two...";
  }

  lemma CutMidWordBacksOff()
    ensures SmartTrim("One two three four", 9, NoOptions) == Ok("One...")
  {
    BackOffToLastSpace("One two three four", 6, 3);
    PrefixIs("One two three four", "One");
    Shortened("One two three four", 9, NoOptions, "One");
    assert "One" + "..." == "One...";
  }

  lemma WhitespaceOnly()
    ensures SmartTrim("     ", 3, NoOptions) == Ok("...")
  {
    SuffixDoesNotFit("     ", 3, NoOptions);
    PrefixIs("...", "...");
  }

  lemma PunctuationOnly()
    ensures SmartTrim("!!!???...", 5, WithPunctuation(false)) == Ok("...")
  {
    NoSpaceKeepsCut("!!!???...", 2);
    PrefixIs("!!!???...", "!!");
    StripPunctuationTo("!!", 0);
    Shortened("!!!???...", 5, WithPunctuation(false), "");
    assert "" + "..." == "...";
  }

  lemma SpaceBeforeCommaKept()
    ensures SmartTrim(Spaced, 15, WithPunctuation(true)) == Ok("This is a ,...")
  {
    BackOffToLastSpace(Spaced, 12, 11);
    PrefixIs(Spaced, "This is a ,");
    Shortened(Spaced, 15, WithPunctuation(true), "This is a ,");
    assert "This is a ," + "..." == "This is a ,...";
  }

  /** The space before the stripped comma is not punctuation and stays. */
  lemma SpaceBeforeCommaStripped()
    ensures SmartTrim(Spaced, 15, WithPunctuation(false)) == Ok("This is a ...")
  {
    BackOffToLastSpace(Spaced, 12, 11);
    PrefixIs(Spaced, "This is a ,");
    StripPunctuationTo("This is a ,", 10);
    Shortened(Spaced, 15, WithPunctuation(false), "This is a ");
    assert "This is a " + "..." == "This is a ...";
  }

  lemma TrailingWhitespace()
    ensures SmartTrim("This is a test , ", 13, NoOptions) == Ok("This is a...")
  {
    BackOffToLastSpace("This is a test , ", 10, 9);
    PrefixIs("This is a test , ", "This is a");
    Shortened("This is a test , ", 13, NoOptions, "This is a");
    assert "This is a" + "..." == "This is a...";
  }

  /** A window without a space keeps its partial word. */
  lemma NoSpaceKeepsPartialWord()
    ensures SmartTrim(LongWord, 10, NoOptions) == Ok("Superca...")
  {
    NoSpaceKeepsCut(LongWord, 7);
    PrefixIs(LongWord, "Superca");
    Shortened(LongWord, 10, NoOptions, "Superca");
    assert "Superca" + "..." == "Superca...";
  }

  lemma NoSpaceWholeWordsOff()
    ensures SmartTrim(LongWord, 10, WithWholeWords(false)) == Ok("Superca...")
  {
    PrefixIs(LongWord, "Superca");
    Shortened(LongWord, 10, WithWholeWords(false), "Superca");
    assert "Superca" + "..." == "Superca...";
  }

  /** The strip runs after the whole-word step, so it removes the comma that the
      back-off exposed; the cut "Hi, " alone ends in a space and has nothing to strip. */
  lemma StripAfterBackOff()
    ensures SmartTrim("Hi, there", 7, WithPunctuation(false)) == Ok("Hi...")
    ensures StripPunctuation("Hi, there"[..4]) == "Hi, "
  {
    BackOffToLastSpace("Hi, there", 4, 3);
    PrefixIs("Hi, there", "Hi,");
    StripPunctuationTo("Hi,", 2);
    Shortened("Hi, there", 7, WithPunctuation(false), "Hi");
    assert "Hi" + "..." == "Hi...";
    StripPunctuationTo("Hi, ", 4);
  }

  lemma NegativeLengthRejected()
    ensures SmartTrim("Hello", -1, NoOptions) == Err(NegativeMaxLength)
    ensures SmartTrim("Hello", -5, NoOptions) == Err(NegativeMaxLength)
    ensures Message(SmartTrim("Hello", -5, NoOptions).error) == "Second argument must be a non-negative integer"
    ensures SmartTrim("Hello", 0, NoOptions) == Ok("")
    ensures SmartTrim("Hello", 10, NoOptions) == Ok("Hello")
  {
    SuffixDoesNotFit("Hello", 0, NoOptions);
  }
}
