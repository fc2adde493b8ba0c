/** `SmartTrimOptions`, its defaults, and merging supplied options over them. */
module Options {
  import opened Wrappers

  /** The caller's options; every field may be absent. An absent options
      argument is `NoOptions`. */
  datatype SmartTrimOptions = SmartTrimOptions(
    suffix: Option<string>,
    preserveWholeWords: Option<bool>,
    preservePunctuation: Option<bool>)

  const NoOptions := SmartTrimOptions(None, None, None)

  /** The options with every field present (`Required<SmartTrimOptions>`). */
  datatype Settings = Settings(
    suffix: string,
    preserveWholeWords: bool,
    preservePunctuation: bool)

  const DefaultSuffix: string := "..."
  const DefaultSettings := Settings(DefaultSuffix, true, true)

  /** `{...DEFAULT_OPTIONS, ...options}`: each present field overrides its default. */
  function Merge(o: SmartTrimOptions): (s: Settings)
    ensures o.suffix.Some? ==> s.suffix == o.suffix.value
    ensures o.suffix.None? ==> s.suffix == "..."
    ensures o.preserveWholeWords.Some? ==> s.preserveWholeWords == o.preserveWholeWords.value
    ensures o.preserveWholeWords.None? ==> s.preserveWholeWords
    ensures o.preservePunctuation.Some? ==> s.preservePunctuation == o.preservePunctuation.value
    ensures o.preservePunctuation.None? ==> s.preservePunctuation
  {
    Settings(
      o.suffix.GetOr(DefaultSettings.suffix),
      o.preserveWholeWords.GetOr(DefaultSettings.preserveWholeWords),
      o.preservePunctuation.GetOr(DefaultSettings.preservePunctuation))
  }

  /** Each merged field depends on its own option only: setting one field
      leaves the others at whatever they were. */
  lemma MergeFieldsIndependent(o: SmartTrimOptions, p: SmartTrimOptions)
    ensures o.suffix == p.suffix ==> Merge(o).suffix == Merge(p).suffix
    ensures o.preserveWholeWords == p.preserveWholeWords ==>
              Merge(o).preserveWholeWords == Merge(p).preserveWholeWords
    ensures o.preservePunctuation == p.preservePunctuation ==>
              Merge(o).preservePunctuation == Merge(p).preservePunctuation
  {
  }

  /** Supplying every field makes the defaults irrelevant, and supplying none yields them. */
  lemma MergeRoundTrip(s: Settings)
    ensures Merge(SmartTrimOptions(Some(s.suffix), Some(s.preserveWholeWords), Some(s.preservePunctuation))) == s
    ensures Merge(NoOptions) == DefaultSettings
  {
  }
}
