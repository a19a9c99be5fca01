/** Settings read from the process environment. */
module Config {

  /** The placeholder shipped in the sample environment file. */
  const PlaceholderKey: string := "your_openai_api_key"

  /**
   * Whether the remote AI service may be tried: `OPENAI_API_KEY` is set, non-empty
   * and not the placeholder. An unset variable is modelled as the empty string.
   */
  predicate RemoteConfigured(apiKey: string) {
    apiKey != [] && apiKey != PlaceholderKey
  }
}
