/**
 * `POST /api/sync-users`: after the token check, every entry of the request's
 * `users` array is validated and upserted into the `users` table in order;
 * an entry missing one of its fields is reported and skipped. A `null`
 * element makes the handler throw, after the entries before it were written.
 */
module SyncUsersRoute {
  import opened Wrappers
  import opened Records
  import opened Collections
  import opened EventStore
  import opened Api

  /** One element of `body.users`: JSON `null`, or an object whose absent fields are None. */
  datatype UserEntry =
    | NullEntry
    | UserEntry(uid: Option<string>, name: Option<string>, department: Option<string>)

  /** The request body; `users` is None when it is absent or not an array. */
  datatype SyncRequest = SyncRequest(apiToken: Option<string>, users: Option<seq<UserEntry>>)

  /**
   * The route's answers: 401, 400, 500, or the completed sync's stats. `errors`
   * holds the rejected entries, each standing for its "Missing required
   * fields for user: …" message, and is absent when there are none.
   */
  datatype SyncResponse =
    | SyncUnauthorized
    | SyncBadRequest
    | SyncFailed
    | SyncCompleted(totalUsers: nat, successful: nat, errorCount: nat, errors: Option<seq<UserEntry>>)

  /** `user.uid && user.name && user.department`, on an object. */
  predicate EntryValid(e: UserEntry)
  {
    e.UserEntry? && Truthy(e.uid) && Truthy(e.name) && Truthy(e.department)
  }

  predicate Rejected(e: UserEntry)
  {
    !EntryValid(e)
  }

  function EntryUid(e: UserEntry): string
  {
    if e.UserEntry? && e.uid.Some? then e.uid.value else ""
  }

  /** The row `upsertUser` writes for a valid entry at clock reading `now`. */
  function UserOf(e: UserEntry, now: string): (u: User)
    requires EntryValid(e)
    ensures u.uid == e.uid.value && u.name == e.name.value && u.department == e.department.value
    ensures u.createdAt == now && u.updatedAt == now
  {
    User(e.uid.value, e.name.value, e.department.value, now, now)
  }

  /** The `users` table after upserting the valid entries of es in order. */
  function ApplyEntries(users: map<string, User>, es: seq<UserEntry>, now: string): map<string, User>
    decreases |es|
  {
    if es == [] then users
    else
      var prev := ApplyEntries(users, es[..|es| - 1], now);
      var e := es[|es| - 1];
      if EntryValid(e) then prev[e.uid.value := UserOf(e, now)] else prev
  }

  lemma ApplyEntriesSnoc(users: map<string, User>, es: seq<UserEntry>, e: UserEntry, now: string)
    ensures ApplyEntries(users, es + [e], now) ==
            if EntryValid(e) then ApplyEntries(users, es, now)[e.uid.value := UserOf(e, now)]
            else ApplyEntries(users, es, now)
  {
    assert (es + [e])[..|es + [e]| - 1] == es;
  }

  /** After the sync the table holds its old uids and the uids of the valid entries, and no others. */
  lemma {:induction false} ApplyEntriesKeys(users: map<string, User>, es: seq<UserEntry>, now: string)
    ensures ApplyEntries(users, es, now).Keys == users.Keys + Image(Filter(es, EntryValid), EntryUid)
    decreases |es|
  {
    if es != [] {
      var init, e := es[..|es| - 1], es[|es| - 1];
      assert es == init + [e];
      ApplyEntriesKeys(users, init, now);
      ApplyEntriesSnoc(users, init, e, now);
      FilterSnoc(init, e, EntryValid);
      ImageSnoc(Filter(init, EntryValid), e, EntryUid);
    }
  }

  /** A uid no valid entry names keeps its row, or stays absent. */
  lemma {:induction false} UntouchedUidKept(users: map<string, User>, es: seq<UserEntry>, now: string, u: string)
    requires forall e :: e in es && EntryValid(e) ==> EntryUid(e) != u
    ensures u in ApplyEntries(users, es, now) <==> u in users
    ensures u in users ==> ApplyEntries(users, es, now)[u] == users[u]
    decreases |es|
  {
    if es != [] {
      var init, e := es[..|es| - 1], es[|es| - 1];
      assert es == init + [e];
      UntouchedUidKept(users, init, now, u);
      ApplyEntriesSnoc(users, init, e, now);
    }
  }

  /**
   * When several valid entries share a uid, the last one wins: its row is the
   * one the table holds afterwards.
   */
  lemma {:induction false} LastValidEntryWins(users: map<string, User>, es: seq<UserEntry>, now: string, i: nat)
    requires i < |es| && EntryValid(es[i])
    requires forall j :: i < j < |es| && EntryValid(es[j]) ==> EntryUid(es[j]) != EntryUid(es[i])
    ensures EntryUid(es[i]) in ApplyEntries(users, es, now)
    ensures ApplyEntries(users, es, now)[EntryUid(es[i])] == UserOf(es[i], now)
    decreases |es|
  {
    var init, e := es[..|es| - 1], es[|es| - 1];
    assert es == init + [e];
    ApplyEntriesSnoc(users, init, e, now);
    if i < |es| - 1 {
      assert init[i] == es[i];
      LastValidEntryWins(users, init, now, i);
    }
  }

  /**
   * The index of the first `null` element, or |es| when there is none: where
   * `user.uid` throws (src/app/api/sync-users/route.ts:35).
   */
  function FirstNull(es: seq<UserEntry>): (k: nat)
    ensures k <= |es|
    ensures forall j :: 0 <= j < k ==> es[j].UserEntry?
    ensures k < |es| ==> es[k].NullEntry?
    decreases |es|
  {
    if es == [] || es[0].NullEntry? then 0 else 1 + FirstNull(es[1..])
  }

  /** A sync that meets a valid new user and then a `null` has changed the table before it fails. */
  lemma NullAfterUpsertLeavesPartialSync(users: map<string, User>, e: UserEntry, now: string)
    requires EntryValid(e) && EntryUid(e) !in users
    ensures FirstNull([e, NullEntry]) == 1
    ensures ApplyEntries(users, [e, NullEntry][..FirstNull([e, NullEntry])], now) != users
  {
    assert [e, NullEntry][..1] == [e];
    ApplyEntriesSnoc(users, [], e, now);
    assert [] + [e] == [e];
  }

  /** Skipping a `null` changes nothing, and counts it as rejected. */
  lemma NullEntryIsSkipped(users: map<string, User>, es: seq<UserEntry>, now: string)
    ensures ApplyEntries(users, es + [NullEntry], now) == ApplyEntries(users, es, now)
    ensures Filter(es + [NullEntry], Rejected) == Filter(es, Rejected) + [NullEntry]
  {
    ApplyEntriesSnoc(users, es, NullEntry, now);
    FilterSnoc(es, NullEntry, Rejected);
  }

  /**
   * The loop over the entries: each valid entry is upserted, each other one
   * is collected as an error.
   */
  method SyncEntries(store: Store, es: seq<UserEntry>, now: string) returns (successful: nat, errors: seq<UserEntry>)
    requires store.Valid()
    modifies store
    ensures store.Valid()
    ensures store.interactions == old(store.interactions) && store.lastId == old(store.lastId)
    ensures store.users == ApplyEntries(old(store.users), es, now)
    ensures successful == |Filter(es, EntryValid)|
    ensures errors == Filter(es, Rejected)
    ensures successful + |errors| == |es|
  {
    successful, errors := 0, [];
    for i := 0 to |es|
      invariant store.Valid()
      invariant store.interactions == old(store.interactions) && store.lastId == old(store.lastId)
      invariant store.users == ApplyEntries(old(store.users), es[..i], now)
      invariant successful == |Filter(es[..i], EntryValid)|
      invariant errors == Filter(es[..i], Rejected)
    {
      var user := es[i];
      TakeSnoc(es, i);
      ApplyEntriesSnoc(old(store.users), es[..i], user, now);
      FilterSnoc(es[..i], user, EntryValid);
      FilterSnoc(es[..i], user, Rejected);
      if !EntryValid(user) {
        errors := errors + [user];
        continue;
      }
      store.UpsertUser(user.uid.value, user.name.value, user.department.value, now);
      successful := successful + 1;
    }
    assert es[..|es|] == es;
    FilterPartition(es, EntryValid, Rejected);
  }

  /**
   * The `POST` handler as written. A wrong token is refused before anything
   * else; a missing array next; otherwise the entries are processed in order.
   * A `null` entry throws twice, in the field check and again in the inner
   * `catch`, so the outer `catch` answers 500 with the entries before it
   * already written; without one, the counts cover every entry exactly once.
   */
  method SyncUsers(store: Store, env: Option<string>, req: SyncRequest, now: string) returns (resp: SyncResponse)
    requires store.Valid()
    modifies store
    ensures store.Valid()
    ensures store.interactions == old(store.interactions) && store.lastId == old(store.lastId)
    ensures resp.SyncUnauthorized? <==> !TokenMatches(ConfiguredToken(env), req.apiToken)
    ensures resp.SyncBadRequest? <==> TokenMatches(ConfiguredToken(env), req.apiToken) && req.users.None?
    ensures resp.SyncFailed? <==>
      TokenMatches(ConfiguredToken(env), req.apiToken) && req.users.Some? && FirstNull(req.users.value) < |req.users.value|
    ensures resp.SyncUnauthorized? || resp.SyncBadRequest? ==> store.users == old(store.users)
    ensures resp.SyncFailed? ==>
      store.users == ApplyEntries(old(store.users), req.users.value[..FirstNull(req.users.value)], now)
    ensures resp.SyncCompleted? ==>
      var es := req.users.value;
      && store.users == ApplyEntries(old(store.users), es, now)
      && resp.totalUsers == |es|
      && resp.successful == |Filter(es, EntryValid)|
      && resp.errorCount == |Filter(es, Rejected)|
      && resp.successful + resp.errorCount == resp.totalUsers
      && resp.errors == if Filter(es, Rejected) == [] then None else Some(Filter(es, Rejected))
  {
    if !TokenMatches(ConfiguredToken(env), req.apiToken) {
      return SyncUnauthorized;
    }
    if req.users.None? {
      return SyncBadRequest;
    }
    var es := req.users.value;
    var k := FirstNull(es);
    var successful, errors := SyncEntries(store, es[..k], now);
    if k < |es| {
      return SyncFailed;
    }
    assert es[..k] == es;
    resp := SyncCompleted(|es|, successful, |errors|, if |errors| > 0 then Some(errors) else None);
  }

  /**
   * The `POST` handler as intended: a `null` entry is reported and skipped
   * like any entry missing its fields, so a sync past the checks always
   * completes and accounts for every entry.
   */
  method SyncUsersSkippingNull(store: Store, env: Option<string>, req: SyncRequest, now: string) returns (resp: SyncResponse)
    requires store.Valid()
    modifies store
    ensures store.Valid()
    ensures store.interactions == old(store.interactions) && store.lastId == old(store.lastId)
    ensures resp.SyncUnauthorized? <==> !TokenMatches(ConfiguredToken(env), req.apiToken)
    ensures resp.SyncBadRequest? <==> TokenMatches(ConfiguredToken(env), req.apiToken) && req.users.None?
    ensures !resp.SyncFailed?
    ensures !resp.SyncCompleted? ==> store.users == old(store.users)
    ensures resp.SyncCompleted? ==>
      var es := req.users.value;
      && store.users == ApplyEntries(old(store.users), es, now)
      && resp.totalUsers == |es|
      && resp.successful == |Filter(es, EntryValid)|
      && resp.errorCount == |Filter(es, Rejected)|
      && resp.successful + resp.errorCount == resp.totalUsers
      && resp.errors == if Filter(es, Rejected) == [] then None else Some(Filter(es, Rejected))
  {
    if !TokenMatches(ConfiguredToken(env), req.apiToken) {
      return SyncUnauthorized;
    }
    if req.users.None? {
      return SyncBadRequest;
    }
    var es := req.users.value;
    var successful, errors := SyncEntries(store, es, now);
    resp := SyncCompleted(|es|, successful, |errors|, if |errors| > 0 then Some(errors) else None);
  }
}
