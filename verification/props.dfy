/**
 * The default every component applies to its optional `language` prop. The
 * card and the pagination control each declare `language = 'ru'`.
 */
module Props {
  import opened Wrappers

  const DefaultLanguage := "ru"

  /** The `language` prop of a component, `DefaultLanguage` when it is not given. */
  function LanguageProp(language: Option<string>): string
  {
    language.GetOr(DefaultLanguage)
  }
}
