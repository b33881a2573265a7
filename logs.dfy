/** The audit record written for one request made under a pass. */
module VisitorLogs {
  import opened Wrappers
  import opened Passes

  /** What the log takes from the request: the pass the request carries, the
      request headers and environment (META), the method, the path, and the
      session key (None when the session has none). */
  datatype Request = Request(
    visitor: Pass,
    meta: map<string, string>,
    httpMethod: string,
    path: string,
    sessionKey: Option<string>)

  /** One log entry; the pass is referenced by its identifier. */
  datatype LogRecord = LogRecord(
    visitorUuid: string,
    visits: int,
    sessionKey: string,
    httpMethod: string,
    requestUri: string,
    queryString: string,
    httpUserAgent: string,
    httpReferer: string,
    remoteAddr: Option<string>,
    statusCode: int,
    timestamp: int)

  const ForwardedFor := "HTTP_X_FORWARDED_FOR"
  const RemoteAddr := "REMOTE_ADDR"

  /** `meta[key]`, or "" when the key is missing. */
  function MetaOr(meta: map<string, string>, key: string): string {
    if key in meta then meta[key] else ""
  }

  /** Capture the request under the pass: a snapshot of the pass's visit count,
      missing optional fields as empty text, and the client address taken from
      the forwarded-for header whenever that header is present (even empty),
      otherwise from REMOTE_ADDR, which may itself be absent. */
  function CreateLog(req: Request, statusCode: int, now: int): (r: LogRecord)
    ensures r.visitorUuid == req.visitor.uuid
    ensures r.visits == req.visitor.visitsCount
    ensures r.sessionKey == (if req.sessionKey.Some? then req.sessionKey.value else "")
    ensures r.httpMethod == req.httpMethod && r.requestUri == req.path
    ensures r.queryString == (if "QUERY_STRING" in req.meta then req.meta["QUERY_STRING"] else "")
    ensures r.httpUserAgent == (if "HTTP_USER_AGENT" in req.meta then req.meta["HTTP_USER_AGENT"] else "")
    ensures r.httpReferer == (if "HTTP_REFERER" in req.meta then req.meta["HTTP_REFERER"] else "")
    ensures ForwardedFor in req.meta ==> r.remoteAddr == Some(req.meta[ForwardedFor])
    ensures ForwardedFor !in req.meta && RemoteAddr in req.meta ==> r.remoteAddr == Some(req.meta[RemoteAddr])
    ensures r.remoteAddr.None? <==> ForwardedFor !in req.meta && RemoteAddr !in req.meta
    ensures r.statusCode == statusCode && r.timestamp == now
  {
    LogRecord(
      req.visitor.uuid,
      req.visitor.visitsCount,
      req.sessionKey.GetOr(""),
      req.httpMethod,
      req.path,
      MetaOr(req.meta, "QUERY_STRING"),
      MetaOr(req.meta, "HTTP_USER_AGENT"),
      MetaOr(req.meta, "HTTP_REFERER"),
      if ForwardedFor in req.meta then Some(req.meta[ForwardedFor])
      else if RemoteAddr in req.meta then Some(req.meta[RemoteAddr])
      else None,
      statusCode,
      now)
  }

  /** A log written after a visit is accepted records the count including that
      visit; one written after a refused visit records the count unchanged. */
  lemma LogAfterVisit(req: Request, statusCode: int, now: int)
    ensures match RegisterVisit(req.visitor)
      case Success(q) => CreateLog(req.(visitor := q), statusCode, now).visits == req.visitor.visitsCount + 1
      case Failure(_) => CreateLog(req, statusCode, now).visits == req.visitor.visitsCount
  {
  }
}
