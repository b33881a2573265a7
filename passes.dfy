/** The visitor pass as a value: its fields at one moment, and the pure
    operations of the pass (validity, the checks, the state transitions the
    mutating methods perform, and the read-only views). The class
    Visitors.Visitor holds the same fields and is specified by these functions. */
module Passes {
  import opened Wrappers
  import opened Settings
  import Urls

  /** The arbitrary JSON held in `context`; `Null` is an absent context. */
  datatype Json =
    | Null
    | Bool(b: bool)
    | Number(n: int)
    | Str(s: string)
    | Array(items: seq<Json>)
    | Object(members: map<string, Json>)

  /** The state of one pass. Timestamps are seconds; `expiresAt` is None when
      the pass never time-expires; `uuid` is the identifier's text form. */
  datatype Pass = Pass(
    uuid: string,
    firstName: string,
    lastName: string,
    email: string,
    scope: string,
    createdAt: int,
    context: Json,
    expiresAt: Option<int>,
    isActive: bool,
    visitsCount: int,
    maxVisits: int)

  /** The keyword arguments a pass is built with; None is an argument not given. */
  datatype Args = Args(
    uuid: Option<string>,
    firstName: Option<string>,
    lastName: Option<string>,
    email: Option<string>,
    scope: Option<string>,
    createdAt: Option<int>,
    context: Option<Json>,
    expiresAt: Option<int>,
    isActive: Option<bool>,
    visitsCount: Option<int>,
    maxVisits: Option<int>)

  datatype InvalidReason = Inactive | Expired

  /** The two exceptions of the pass. */
  datatype VisitError =
    | InvalidVisitorPass(reason: InvalidReason)
    | MaximumVisitsExceeded

  // ---------------------------------------------------------------------
  // Construction

  /** The pass built from `a`: each argument not given takes its field default
      (a fresh identifier, the current time, active, no visits, the configured
      quota, empty text, no context), and then a missing expiry becomes the
      creation time plus the configured token lifetime. */
  function Init(a: Args, freshUuid: string, now: int, cfg: Config): (p: Pass)
    ensures p.expiresAt.Some?
    ensures a.expiresAt.Some? ==> p.expiresAt == a.expiresAt
    ensures a.expiresAt.None? ==> p.expiresAt == Some(p.createdAt + cfg.tokenExpiry)
    ensures p.createdAt == (if a.createdAt.Some? then a.createdAt.value else now)
    ensures p.uuid == (if a.uuid.Some? then a.uuid.value else freshUuid)
    ensures p.isActive == (a.isActive != Some(false))
    ensures p.visitsCount == (if a.visitsCount.Some? then a.visitsCount.value else 0)
    ensures p.maxVisits == (if a.maxVisits.Some? then a.maxVisits.value else cfg.defaultMaxVisits)
    ensures p.firstName == (if a.firstName.Some? then a.firstName.value else "")
    ensures p.lastName == (if a.lastName.Some? then a.lastName.value else "")
    ensures p.email == (if a.email.Some? then a.email.value else "")
    ensures p.scope == (if a.scope.Some? then a.scope.value else "")
    ensures p.context == (if a.context.Some? then a.context.value else Null)
  {
    var createdAt := a.createdAt.GetOr(now);
    Pass(
      a.uuid.GetOr(freshUuid),
      a.firstName.GetOr(""),
      a.lastName.GetOr(""),
      a.email.GetOr(""),
      a.scope.GetOr(""),
      createdAt,
      a.context.GetOr(Null),
      Some(a.expiresAt.GetOr(createdAt + cfg.tokenExpiry)),
      a.isActive.GetOr(true),
      a.visitsCount.GetOr(0),
      a.maxVisits.GetOr(cfg.defaultMaxVisits))
  }

  /** Every argument left to its default. */
  const NoArgs := Args(None, None, None, None, None, None, None, None, None, None, None)

  /** A pass built with all defaults, under a non-negative lifetime and a positive
      quota, is valid from its creation until its expiry, inclusive. */
  lemma DefaultPassValidUntilExpiry(freshUuid: string, now: int, cfg: Config, t: int)
    requires cfg.tokenExpiry >= 0 && cfg.defaultMaxVisits > 0
    requires now <= t <= now + cfg.tokenExpiry
    ensures IsValid(Init(NoArgs, freshUuid, now, cfg), t)
    ensures Init(NoArgs, freshUuid, now, cfg).expiresAt == Some(now + cfg.tokenExpiry)
  {
  }

  // ---------------------------------------------------------------------
  // Validity

  /** The expiry time has been passed; a pass without one never expires. */
  predicate HasExpired(p: Pass, now: int): (b: bool)
    ensures p.expiresAt.None? ==> !b
    ensures p.expiresAt.Some? ==> (b <==> now > p.expiresAt.value)
  {
    p.expiresAt.Some? && p.expiresAt.value < now
  }

  /** Active, not expired, and with visits left under the quota. */
  predicate IsValid(p: Pass, now: int): (b: bool)
    ensures b <==> Validate(p, now).Ok? && RegisterVisit(p).Success?
  {
    p.isActive && !HasExpired(p, now) && p.visitsCount < p.maxVisits
  }

  /** Expiry is exact at its instant and permanent afterwards: a pass is still
      unexpired at its expiry time, expired one second later, and once expired
      it stays expired at every later time. */
  lemma ExpiryIsPermanent(p: Pass, t1: int, t2: int)
    requires t1 <= t2
    ensures HasExpired(p, t1) ==> HasExpired(p, t2)
    ensures p.expiresAt.Some? ==> !HasExpired(p, p.expiresAt.value)
    ensures p.expiresAt.Some? ==> HasExpired(p, p.expiresAt.value + 1)
    ensures p.expiresAt.None? ==> !HasExpired(p, t2)
  {
  }

  /** The activation/expiry check. The inactive reason wins over the expired one;
      the quota is never consulted. */
  function Validate(p: Pass, now: int): (r: Outcome<VisitError>)
    ensures r.Ok? <==> p.isActive && !HasExpired(p, now)
    ensures r.Fail? ==> r.error.InvalidVisitorPass?
    ensures !p.isActive ==> r == Fail(InvalidVisitorPass(Inactive))
    ensures p.isActive && HasExpired(p, now) ==> r == Fail(InvalidVisitorPass(Expired))
  {
    if !p.isActive then Fail(InvalidVisitorPass(Inactive))
    else if HasExpired(p, now) then Fail(InvalidVisitorPass(Expired))
    else Ok
  }

  /** Validate gives the same answer whatever the visit count and quota are. */
  lemma ValidateIgnoresQuota(p: Pass, now: int, visitsCount: int, maxVisits: int)
    ensures Validate(p.(visitsCount := visitsCount, maxVisits := maxVisits), now) == Validate(p, now)
  {
  }

  /** is_valid is exactly Validate passing plus visits left under the quota; so an
      active, unexpired pass that has used up its quota passes Validate and yet
      is not valid. */
  lemma IsValidIsValidatePlusQuota(p: Pass, now: int)
    ensures IsValid(p, now) <==> Validate(p, now).Ok? && p.visitsCount < p.maxVisits
    ensures Validate(p, now).Ok? && p.visitsCount >= p.maxVisits ==> !IsValid(p, now)
  {
  }

  // ---------------------------------------------------------------------
  // Counting visits

  /** Register one visit: refused with MaximumVisitsExceeded when the count has
      reached the quota, otherwise the count goes up by one and nothing else moves. */
  function RegisterVisit(p: Pass): (r: Result<Pass, VisitError>)
    ensures r.Failure? <==> p.visitsCount >= p.maxVisits
    ensures r.Failure? ==> r.error == MaximumVisitsExceeded
    ensures r.Success? ==> r.value.visitsCount == p.visitsCount + 1 <= p.maxVisits
    ensures r.Success? ==> r.value.(visitsCount := p.visitsCount) == p
  {
    if p.visitsCount >= p.maxVisits then Failure(MaximumVisitsExceeded)
    else Success(p.(visitsCount := p.visitsCount + 1))
  }

  /** The visit counter never looks at activation or expiry. */
  lemma RegisterVisitIgnoresActivation(p: Pass, isActive: bool, expiresAt: Option<int>)
    ensures RegisterVisit(p.(isActive := isActive, expiresAt := expiresAt)).Success?
        <==> RegisterVisit(p).Success?
  {
  }

  /** A zero or negative quota refuses every visit of a pass whose count is not negative. */
  lemma NoQuotaRefusesVisits(p: Pass)
    requires p.maxVisits <= 0 <= p.visitsCount
    ensures RegisterVisit(p) == Failure(MaximumVisitsExceeded)
  {
  }

  /** For a pass that passes Validate, is_valid says exactly whether a visit
      will be accepted. */
  lemma ValidPassAcceptsVisit(p: Pass, now: int)
    requires Validate(p, now).Ok?
    ensures IsValid(p, now) <==> RegisterVisit(p).Success?
  {
  }

  /** The state after `n` attempts to register a visit (a refused attempt changes nothing). */
  function RegisterVisits(p: Pass, n: nat): Pass
    decreases n
  {
    if n == 0 then p
    else match RegisterVisit(p)
      case Success(q) => RegisterVisits(q, n - 1)
      case Failure(_) => p
  }

  /** Repeated visits count up one by one until the quota is reached and then
      stop: the count never passes the quota (or its starting value, when that
      was already over), and no other field changes. */
  lemma {:induction false} VisitsStopAtQuota(p: Pass, n: nat)
    ensures RegisterVisits(p, n) == p.(visitsCount :=
      if p.visitsCount >= p.maxVisits then p.visitsCount
      else if p.visitsCount + n <= p.maxVisits then p.visitsCount + n
      else p.maxVisits)
    decreases n
  {
    if n > 0 && p.visitsCount < p.maxVisits {
      VisitsStopAtQuota(p.(visitsCount := p.visitsCount + 1), n - 1);
    }
  }

  // ---------------------------------------------------------------------
  // Deactivation and reactivation

  /** Switch the pass off; nothing else changes. */
  function Deactivate(p: Pass): (r: Pass)
    ensures !r.isActive
    ensures r.(isActive := p.isActive) == p
  {
    p.(isActive := false)
  }

  /** Deactivating twice is deactivating once, and a deactivated pass is
      refused as inactive and is never valid. */
  lemma DeactivateIsIdempotent(p: Pass, now: int)
    ensures Deactivate(Deactivate(p)) == Deactivate(p)
    ensures Validate(Deactivate(p), now) == Fail(InvalidVisitorPass(Inactive))
    ensures !IsValid(Deactivate(p), now)
  {
  }

  /** Switch the pass back on with a fresh expiry window from `now`, and
      clear the visit count when the configuration says so; nothing else changes. */
  function Reactivate(p: Pass, now: int, cfg: Config): (r: Pass)
    ensures r.isActive
    ensures r.expiresAt == Some(now + cfg.tokenExpiry)
    ensures r.visitsCount == (if cfg.reactivateResetsVisits then 0 else p.visitsCount)
    ensures r.(isActive := p.isActive, expiresAt := p.expiresAt, visitsCount := p.visitsCount) == p
  {
    var r := p.(isActive := true, expiresAt := Some(now + cfg.tokenExpiry));
    if cfg.reactivateResetsVisits then r.(visitsCount := 0) else r
  }

  /** After reactivation under a non-negative lifetime, the pass passes Validate
      throughout its new window; with the reset flag on it is valid exactly when
      its quota is positive, with it off exactly when its old count was under
      the quota. */
  lemma ReactivateRevives(p: Pass, now: int, cfg: Config, t: int)
    requires cfg.tokenExpiry >= 0
    requires now <= t <= now + cfg.tokenExpiry
    ensures !HasExpired(Reactivate(p, now, cfg), t)
    ensures Validate(Reactivate(p, now, cfg), t) == Ok
    ensures cfg.reactivateResetsVisits ==> (IsValid(Reactivate(p, now, cfg), t) <==> p.maxVisits > 0)
    ensures !cfg.reactivateResetsVisits ==> (IsValid(Reactivate(p, now, cfg), t) <==> p.visitsCount < p.maxVisits)
  {
  }

  /** A reactivation followed by a deactivation leaves the pass refused, whatever
      state it started in. */
  lemma DeactivateAfterReactivate(p: Pass, now: int, cfg: Config, t: int)
    ensures !IsValid(Deactivate(Reactivate(p, now, cfg)), t)
    ensures Deactivate(Reactivate(p, now, cfg)).expiresAt == Some(now + cfg.tokenExpiry)
  {
  }

  // ---------------------------------------------------------------------
  // Read-only views

  /** First and last name joined by one space; the space is there even when
      either name is empty. */
  function FullName(p: Pass): (r: string)
    ensures |r| == |p.firstName| + 1 + |p.lastName|
    ensures r[..|p.firstName|] == p.firstName
    ensures r[|p.firstName|] == ' '
    ensures r[|p.firstName| + 1..] == p.lastName
  {
    p.firstName + " " + p.lastName
  }

  /** The nine keys of the serialized pass. */
  const SerializedKeys: set<string> :=
    {"uuid", "first_name", "last_name", "full_name", "email", "scope",
     "context", "max_visits", "visits_count"}

  /** The JSON-ready view of the pass: identity, names, contact, scope,
      context and quota, without the active flag or any timestamp. */
  function Serialize(p: Pass): (r: map<string, Json>)
    ensures r.Keys == SerializedKeys
    ensures r["uuid"] == Str(p.uuid)
    ensures r["first_name"] == Str(p.firstName) && r["last_name"] == Str(p.lastName)
    ensures r["full_name"] == Str(FullName(p))
    ensures r["email"] == Str(p.email) && r["scope"] == Str(p.scope)
    ensures r["context"] == p.context
    ensures r["max_visits"] == Number(p.maxVisits)
    ensures r["visits_count"] == Number(p.visitsCount)
  {
    map[
      "uuid" := Str(p.uuid),
      "first_name" := Str(p.firstName),
      "last_name" := Str(p.lastName),
      "full_name" := Str(FullName(p)),
      "email" := Str(p.email),
      "scope" := Str(p.scope),
      "context" := p.context,
      "max_visits" := Number(p.maxVisits),
      "visits_count" := Number(p.visitsCount)]
  }

  /** The serialized view does not depend on the active flag or the timestamps,
      so deactivation and reactivation without a visit reset leave it as it was. */
  lemma SerializeOmitsLifecycle(p: Pass, isActive: bool, createdAt: int, expiresAt: Option<int>, now: int, cfg: Config)
    ensures Serialize(p.(isActive := isActive, createdAt := createdAt, expiresAt := expiresAt)) == Serialize(p)
    ensures Serialize(Deactivate(p)) == Serialize(p)
    ensures !cfg.reactivateResetsVisits ==> Serialize(Reactivate(p, now, cfg)) == Serialize(p)
  {
  }

  /** The URL with the pass's identifier set as the value of the configured query
      key: the old values of that key are replaced, a missing key is added after
      the existing ones, every other key and every other component is kept. */
  function Tokenise(p: Pass, u: Urls.Url, cfg: Config): (r: Urls.Url)
    ensures r.scheme == u.scheme && r.netloc == u.netloc && r.path == u.path
    ensures r.params == u.params && r.fragment == u.fragment
    ensures Urls.Get(r.query, cfg.querystringKey) == Some([p.uuid])
    ensures forall k :: k != cfg.querystringKey ==> Urls.Get(r.query, k) == Urls.Get(u.query, k)
    ensures cfg.querystringKey in Urls.Keys(u.query) ==> Urls.Keys(r.query) == Urls.Keys(u.query)
    ensures cfg.querystringKey !in Urls.Keys(u.query) ==> Urls.Keys(r.query) == Urls.Keys(u.query) + [cfg.querystringKey]
  {
    Urls.UpdateKeys(u.query, cfg.querystringKey, [p.uuid]);
    u.(query := Urls.Update(u.query, cfg.querystringKey, [p.uuid]))
  }

  /** The two tokenised URLs of the pass's tests: a URL without a query string
      gains exactly the key, and a URL whose only parameter is the key has its
      old value replaced. */
  lemma TokeniseSoleParameter(p: Pass, u: Urls.Url, cfg: Config, oldValues: seq<string>)
    requires u.query == [] || u.query == [(cfg.querystringKey, oldValues)]
    ensures Tokenise(p, u, cfg).query == [(cfg.querystringKey, [p.uuid])]
  {
  }
}
