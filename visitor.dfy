/** The visitor pass as the object the application holds: its fields are
    updated in place by the constructor, RegisterVisit, Deactivate and
    Reactivate, each specified by the matching function of Passes. */
module Visitors {
  import opened Wrappers
  import opened Settings
  import opened Passes

  class Visitor {
    var uuid: string
    var firstName: string
    var lastName: string
    var email: string
    var scope: string
    var createdAt: int
    var context: Json
    var expiresAt: Option<int>
    var isActive: bool
    var visitsCount: int
    var maxVisits: int

    /** The pass's fields as a value. */
    function Snapshot(): Pass
      reads this
    {
      Pass(uuid, firstName, lastName, email, scope, createdAt, context,
           expiresAt, isActive, visitsCount, maxVisits)
    }

    /** Field defaults first, then the expiry default when none was given. */
    constructor (a: Args, freshUuid: string, now: int, cfg: Config)
      ensures Snapshot() == Init(a, freshUuid, now, cfg)
      ensures a.expiresAt.None? ==> expiresAt == Some(createdAt + cfg.tokenExpiry)
    {
      uuid := a.uuid.GetOr(freshUuid);
      firstName := a.firstName.GetOr("");
      lastName := a.lastName.GetOr("");
      email := a.email.GetOr("");
      scope := a.scope.GetOr("");
      createdAt := a.createdAt.GetOr(now);
      context := a.context.GetOr(Null);
      expiresAt := a.expiresAt;
      isActive := a.isActive.GetOr(true);
      visitsCount := a.visitsCount.GetOr(0);
      maxVisits := a.maxVisits.GetOr(cfg.defaultMaxVisits);
      new;
      if expiresAt.None? {
        expiresAt := Some(createdAt + cfg.tokenExpiry);
      }
    }

    /** Count one visit, or raise MaximumVisitsExceeded with no field changed. */
    method RegisterVisit() returns (r: Outcome<VisitError>)
      modifies this
      ensures r.Fail? <==> old(visitsCount) >= old(maxVisits)
      ensures r.Fail? ==> r.error == MaximumVisitsExceeded && Snapshot() == old(Snapshot())
      ensures r.Ok? ==> Snapshot() == old(Snapshot()).(visitsCount := old(visitsCount) + 1)
      ensures Passes.RegisterVisit(old(Snapshot())) == if r.Ok? then Success(Snapshot()) else Failure(r.error)
    {
      if visitsCount >= maxVisits {
        return Fail(MaximumVisitsExceeded);
      }
      visitsCount := visitsCount + 1;
      r := Ok;
    }

    /** Switch the pass off. */
    method Deactivate()
      modifies this
      ensures !isActive
      ensures Snapshot() == Passes.Deactivate(old(Snapshot()))
    {
      isActive := false;
    }

    /** Switch the pass back on with a new expiry window from `now`, resetting
        the visit count when the configuration says so. */
    method Reactivate(now: int, cfg: Config)
      modifies this
      ensures isActive && expiresAt == Some(now + cfg.tokenExpiry)
      ensures visitsCount == if cfg.reactivateResetsVisits then 0 else old(visitsCount)
      ensures Snapshot() == Passes.Reactivate(old(Snapshot()), now, cfg)
    {
      isActive := true;
      expiresAt := Some(now + cfg.tokenExpiry);
      if cfg.reactivateResetsVisits {
        visitsCount := 0;
      }
    }
  }

  /** A pass created inactive and already expired, then reactivated: it comes
      back active and unexpired, and valid when the configuration resets the
      visit count and the configured quota is positive. */
  method ReactivateExpiredPass(freshUuid: string, now: int, cfg: Config)
    returns (active: bool, expired: bool, valid: bool)
    requires cfg.tokenExpiry >= 0
    ensures active && !expired
    ensures cfg.reactivateResetsVisits && cfg.defaultMaxVisits > 0 ==> valid
    ensures !cfg.reactivateResetsVisits ==> (valid <==> 0 < cfg.defaultMaxVisits)
  {
    var yesterday := now - 86400;
    var v := new Visitor(NoArgs.(isActive := Some(false), expiresAt := Some(yesterday)), freshUuid, now, cfg);
    assert !IsValid(v.Snapshot(), now);
    v.Reactivate(now, cfg);
    active := v.isActive;
    expired := HasExpired(v.Snapshot(), now);
    valid := IsValid(v.Snapshot(), now);
  }
}
