/** The configuration values the visitor pass reads from its settings module. */
module Settings {

  /** `tokenExpiry` is VISITOR_TOKEN_EXPIRY, in seconds (the pass's DEFAULT_TOKEN_EXPIRY);
      `defaultMaxVisits` is DEFAULT_MAX_VISITS; `reactivateResetsVisits` is
      REACTIVATE_RESETS_VISTIS; `querystringKey` is VISITOR_QUERYSTRING_KEY. */
  datatype Config = Config(
    tokenExpiry: int,
    defaultMaxVisits: int,
    reactivateResetsVisits: bool,
    querystringKey: string)
}
