# Visitor passes

A model of the visitor pass of the `visitors` Django app. A visitor pass is a token that gives a
named, scoped caller access somewhere between anonymous and authenticated. The token is bounded by
three independent things: an activation flag, an expiry time and a visit quota. The model covers
the following:

- how a pass is built with its defaults (`Passes.Init`, and the class constructor);
- when it has expired, when it is valid, and the activation/expiry check `validate`, which
  deliberately ignores the quota;
- counting visits against the quota (`register_visit`);
- deactivation, and reactivation with its configuration-dependent reset of the visit count;
- the read-only views `full_name` and `serialize`;
- embedding the pass identifier into a URL's query string (`tokenise`);
- building the audit log record for one request (`VisitorLogManager.create_log`).

Layout:

- `wrappers.dfy`: `Option`, `Result` (value or raised error) and `Outcome` (nothing or raised error).
- `settings.dfy`: `Config`, which holds the four settings the pass reads (token lifetime, default
  quota, reset-on-reactivate flag, query string key). Each is passed in explicitly.
- `urls.dfy`: a URL as its six components, with the query string as the parsed dictionary. This is
  an ordered list of distinct keys, each with its list of values. `Update` is the dictionary's
  one-entry `update`.
- `passes.dfy`: the pass as a value (`Pass`) with every pure operation and the lifecycle
  transitions as functions, and the lemmas about them.
- `visitor.dfy`: the class `Visitor`, whose fields the constructor, `RegisterVisit`, `Deactivate`
  and `Reactivate` update in place. Each of them is specified by the matching function of `Passes`
  through `Snapshot()`.
- `logs.dfy`: the request record and the log record, with `CreateLog`.

The current time (`now`, an integer in seconds) and the fresh identifier that `uuid4` would draw
are parameters. Exceptions are error values: `InvalidVisitorPass(Inactive | Expired)` and
`MaximumVisitsExceeded`.

## Model

| member | source | states |
|---|---|---|
| Passes.Init | visitors/models.py:76-79 | A missing expiry becomes creation time plus the token lifetime, and an explicit expiry is kept. Every other argument given is kept as given. Every argument left out takes its field default: a fresh id, now, active, 0 visits, the configured quota, empty names, email and scope, and no context. |
| Visitors.Visitor.constructor | visitors/models.py:76-79 | The new object's fields equal `Init` of its arguments. Without an explicit expiry, `expiresAt == createdAt + tokenExpiry`. |
| Passes.DefaultPassValidUntilExpiry | visitors/models.py:76-100 | Assume a non-negative lifetime and a positive default quota. Then a pass built with all defaults expires exactly one lifetime after creation and is valid at every moment up to then. |
| Passes.ExpiryIsPermanent | visitors/models.py:90-94 | `has_expired` is strict: the pass is not expired at its expiry instant but is one second later. Once expired it stays expired. Without an expiry it never expires. |
| Passes.HasExpired | visitors/models.py:90-94 | A pass without an expiry never expires. A pass with one has expired exactly when the current time is strictly after it. Permanence and the boundary instant are proved in `ExpiryIsPermanent`. |
| Passes.IsValid | visitors/models.py:96-100 | Valid exactly when `validate` passes and a visit would be accepted (`register_visit` succeeds), i.e. active, unexpired and under the quota. The split between the two checks is proved in `IsValidIsValidatePlusQuota`. |
| Passes.IsValidIsValidatePlusQuota | visitors/models.py:96-107 | `is_valid` holds iff `validate` passes and `visits_count < max_visits`. An active, unexpired pass whose quota is used up passes `validate` but is not valid. |
| Passes.Validate | visitors/models.py:102-107 | Fails iff the pass is inactive or expired, always with `InvalidVisitorPass`. "Inactive" wins when both hold. |
| Passes.ValidateIgnoresQuota | visitors/models.py:102-107 | The result of `validate` is the same for every visit count and quota. |
| Passes.RegisterVisit | visitors/models.py:109-120 | Fails with `MaximumVisitsExceeded` iff `visits_count >= max_visits`. On success the count rises by exactly one, stays within the quota, and nothing else changes. |
| Visitors.Visitor.RegisterVisit | visitors/models.py:109-120 | Raises `MaximumVisitsExceeded` iff the old count reached the quota, and then changes no field. Otherwise the count goes up by one. The new state agrees with `Passes.RegisterVisit`. |
| Passes.RegisterVisitIgnoresActivation | visitors/models.py:117-119 | Whether a visit is accepted does not depend on the active flag or the expiry. |
| Passes.NoQuotaRefusesVisits | visitors/models.py:117-118 | A quota of zero or less refuses every visit when the count is not negative. |
| Passes.ValidPassAcceptsVisit | tests/test_models.py:83-91 | For a pass that passes `validate`, `is_valid` holds exactly when `register_visit` succeeds. |
| Passes.VisitsStopAtQuota | visitors/models.py:109-119 | After n visit attempts the count is min(start + n, quota). It is left unchanged if it already reached the quota. No other field moves. |
| Passes.Deactivate | visitors/models.py:150-153 | The pass becomes inactive, and every other field is unchanged. |
| Visitors.Visitor.Deactivate | visitors/models.py:150-153 | The object becomes inactive, and its state equals `Passes.Deactivate` of the old state. |
| Passes.DeactivateIsIdempotent | visitors/models.py:150-153 | Deactivating twice equals deactivating once. A deactivated pass fails `validate` as inactive and is never valid. |
| Passes.Reactivate | visitors/models.py:155-163 | Sets the pass active with expiry `now + lifetime`. It zeroes the count iff the reset flag is set, and nothing else changes. |
| Visitors.Visitor.Reactivate | visitors/models.py:155-163 | The object is active with the new expiry and the count reset per the flag. Its state equals `Passes.Reactivate` of the old state. |
| Passes.ReactivateRevives | visitors/models.py:155-163 | With a non-negative lifetime, a reactivated pass is unexpired and passes `validate` throughout its new window. With the reset flag it is valid iff `max_visits > 0`; without it, iff its old count was under the quota. |
| Passes.DeactivateAfterReactivate | visitors/models.py:150-163 | Deactivating after a reactivation leaves the pass invalid but keeps the refreshed expiry. |
| Visitors.ReactivateExpiredPass | tests/test_models.py:43-69 | Take an inactive, already expired pass and reactivate it. It is then active and unexpired, and valid when the flag resets visits and the default quota is positive. |
| Passes.FullName | visitors/models.py:82-83 | The full name is the first name, one space, then the last name. The space is there even if a name is empty. |
| Passes.Serialize | visitors/models.py:122-139 | Has exactly the nine keys uuid, first_name, last_name, full_name, email, scope, context, max_visits and visits_count, each holding the matching field. |
| Passes.SerializeOmitsLifecycle | visitors/models.py:122-139 | The serialized view ignores the active flag and all timestamps. So deactivation, and reactivation without a reset, leave it unchanged. |
| Urls.Update | visitors/models.py:146 | Afterwards the key maps to exactly the new values, and every other key's lookup is unchanged. Existing entries keep their keys in place; a key that was absent is added as the last entry. The result is again a dictionary: its keys stay distinct (the `QueryDict` type). |
| Urls.UpdateKeys | visitors/models.py:146 | The key order after an update is unchanged when the key was present. Otherwise it is the old order followed by the key. |
| Passes.Tokenise | visitors/models.py:141-148 | Scheme, netloc, path, params and fragment are unchanged. The configured key maps to exactly the pass's uuid, replacing old values or being added last. Every other key's values are unchanged. |
| Passes.TokeniseSoleParameter | tests/test_models.py:20-29 | Tokenising a URL with no query, or with only the key (whatever its old value), yields exactly one parameter: the key with the pass's uuid. |
| VisitorLogs.CreateLog | visitors/models.py:167-188 | The log snapshots the pass's visit count and takes the pass's id, the method and the path. The query string, user agent and referer are copied from META when present and are "" when missing. The address is X-Forwarded-For whenever that key is present, even if empty; otherwise REMOTE_ADDR when present; otherwise none. |
| VisitorLogs.LogAfterVisit | visitors/models.py:170-171 | A log written after an accepted visit records the new count, and one written after a refused visit records the unchanged count. |

## Left out

- Django ORM plumbing: field declarations and options, `Meta`, and `save()`. `last_updated_at` (auto_now) is not a field of the model and the methods do not persist anything. The `VisitorLog` table schema is reduced to the record `CreateLog` returns.
- The class-body `if last_updated_at > created_at:` (visitors/models.py:57-60): it compares two field objects at import time and only changes whether `max_visits` is editable in the admin.
- `__str__` and `__repr__`: display only.
- `session_data` (visitors/models.py:85-87) is not modelled: it is `str(uuid)`, the text the model already holds in `uuid`.
- Randomness and the clock: `uuid.uuid4` and `tz_now` become the parameters `freshUuid` and `now`. Identifiers are held as their text form. `context` is JSON with integer numbers only.
- The settings module is not part of this model: its four values are the `Config` parameter.
- Concurrency: `register_visit` is a plain read, check, increment, save with no atomic update. The model is single-threaded and does not capture two concurrent visits both passing the quota check.
- Passes.Tokenise: states the parsed query dictionary after the update, not the text of the URL. `urlparse`, `parse_qs`, `urlencode` and `urlunparse` are library code outside this model. Because `urlencode` is called without `doseq`, every other parameter's value list is re-encoded as its printed form (such as `['v']`), and `parse_qs` drops blank values. So other parameters do not survive verbatim in the text, and no idempotence is claimed for URLs with other keys. The tokenised key itself carries the uuid, which the model writes as the one-element list `[uuid]`.
- VisitorLogs.CreateLog: returns a record with no address when the request has neither `HTTP_X_FORWARDED_FOR` nor `REMOTE_ADDR`. The source never stores such a record, because `VisitorLog.remote_addr` is a NOT NULL text column (visitors/models.py:199) and the insert at visitors/models.py:169 fails. That database failure is not modelled.
- `create_log` reads `request.visitor`, `request.session` and `request.META` from a Django request. These are modelled as a plain `Request` record, and persisting the entry is left out.
- Passes.NoQuotaRefusesVisits: requires a non-negative count, because `visits_count` is a plain integer field and a pass created with a count of -1 and a quota of 0 is still accepted once.

## Notes on the source's comments

Where the source's comments disagree with its code, the model follows the code:

- The docstring of `has_expired` (visitors/models.py:91) says it returns True when the expiry is "not yet set". The code returns False (visitors/models.py:92-93), and so does `Passes.HasExpired`.
- The comment at tests/test_models.py:47-48 says that, without the reset flag, a reactivated pass "remains invalid". The code leaves the visit count alone, so the pass is valid again whenever its old count is under its quota (`Passes.ReactivateRevives`). A pass created with the defaults and then reactivated is valid whenever the default quota is positive (`Visitors.ReactivateExpiredPass`).
