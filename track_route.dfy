/**
 * `POST /api/track`: after the token check and the required-field check, one
 * interaction is inserted with the client's session id, IP address and user
 * agent, and its new id is returned.
 */
module TrackRoute {
  import opened Wrappers
  import opened Records
  import opened Collections
  import opened EventStore
  import opened Queries
  import opened Api
  import opened DashboardRoute

  /** The request body; a field that is absent is None. */
  datatype TrackRequest = TrackRequest(apiToken: Option<string>, userUid: Option<string>,
                                       userDepartment: Option<string>, systemSection: Option<string>,
                                       systemFunction: Option<string>, sessionId: Option<string>)

  /** The request headers the route reads; a header that is not sent is None. */
  datatype Headers = Headers(forwardedFor: Option<string>, realIp: Option<string>, userAgent: Option<string>)

  /** 401, 400, 500 when the insert fails, or success with the new row's id. */
  datatype TrackResponse =
    | TrackUnauthorized
    | TrackBadRequest
    | TrackFailed
    | Tracked(interactionId: nat)

  /** `user_uid && user_department && system_section && system_function` */
  predicate HasRequiredFields(req: TrackRequest)
  {
    Truthy(req.userUid) && Truthy(req.userDepartment) && Truthy(req.systemSection) && Truthy(req.systemFunction)
  }

  /** `x-forwarded-for`, else `x-real-ip`, else null; an empty header counts as absent. */
  function ClientIp(h: Headers): (ip: Option<string>)
    ensures ip.Some? <==> Truthy(h.forwardedFor) || Truthy(h.realIp)
    ensures Truthy(h.forwardedFor) ==> ip == h.forwardedFor
    ensures !Truthy(h.forwardedFor) && Truthy(h.realIp) ==> ip == h.realIp
  {
    if Truthy(h.forwardedFor) then h.forwardedFor else OrNull(h.realIp)
  }

  /** The row the route asks the store to insert, with the id the store assigns. */
  function TrackedRecord(req: TrackRequest, h: Headers, id: nat, now: Timestamp): Interaction
    requires HasRequiredFields(req)
  {
    Interaction(id, req.userUid.value, req.userDepartment.value, req.systemSection.value,
                req.systemFunction.value, OrNull(req.sessionId), ClientIp(h), OrNull(h.userAgent), now)
  }

  /**
   * The `POST` handler. A wrong token is refused before anything else, a
   * missing field next; the insert fails, leaving the store as it was, when
   * the user is not synced or the ids are exhausted.
   */
  method Track(store: Store, env: Option<string>, req: TrackRequest, h: Headers, now: Timestamp)
    returns (resp: TrackResponse)
    requires store.Valid()
    modifies store
    ensures store.Valid()
    ensures store.users == old(store.users)
    ensures resp.TrackUnauthorized? <==> !TokenMatches(ConfiguredToken(env), req.apiToken)
    ensures resp.TrackBadRequest? <==> TokenMatches(ConfiguredToken(env), req.apiToken) && !HasRequiredFields(req)
    ensures resp.TrackFailed? <==>
      && TokenMatches(ConfiguredToken(env), req.apiToken) && HasRequiredFields(req)
      && (req.userUid.value !in old(store.users) || old(store.lastId) == MaxRowId)
    ensures !resp.Tracked? ==> store.interactions == old(store.interactions) && store.lastId == old(store.lastId)
    ensures resp.Tracked? ==>
      && HasRequiredFields(req)
      && resp.interactionId == old(store.lastId) + 1 == store.lastId
      && store.interactions == old(store.interactions) + [TrackedRecord(req, h, resp.interactionId, now)]
  {
    if !TokenMatches(ConfiguredToken(env), req.apiToken) {
      return TrackUnauthorized;
    }
    if !HasRequiredFields(req) {
      return TrackBadRequest;
    }
    var sessionId := OrNull(req.sessionId);
    var ipAddress := ClientIp(h);
    var userAgent := OrNull(h.userAgent);
    var id := store.InsertInteraction(req.userUid.value, req.userDepartment.value, req.systemSection.value,
                                      req.systemFunction.value, sessionId, ipAddress, userAgent, now);
    if id.None? {
      return TrackFailed;
    }
    resp := Tracked(id.value);
  }

  /** A tracked record adds one to its day's total on the dashboard, and no other day's. */
  lemma TrackedRecordCountsOnItsDay(log: seq<Interaction>, r: Interaction, date: string)
    ensures |OnDay(log + [r], date)| == |OnDay(log, date)| + (if r.recordDate.day == date then 1 else 0)
  {
    FilterSnoc(log, r, DayIs(date));
  }

  /** The dashboard's total for the tracked record's day grows by exactly one. */
  lemma TrackedRaisesDayTotal(log: seq<Interaction>, r: Interaction)
    ensures SummaryOf(log + [r], r.recordDate.day).totalInteractions ==
            SummaryOf(log, r.recordDate.day).totalInteractions + 1
  {
    TrackedRecordCountsOnItsDay(log, r, r.recordDate.day);
  }
}
