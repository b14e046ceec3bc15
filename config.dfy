/** The part of the Astro configuration object the integration reads. */
module AstroConfig {
  import opened Wrappers

  /**
   * base: `config.base`; buildAssets: `config.build?.assets` (None when build
   * or assets is missing); integrations: the names of `config.integrations`
   * in order (None when the list is missing).
   */
  datatype Config = Config(base: string, buildAssets: Option<string>, integrations: Option<seq<string>>)
}
