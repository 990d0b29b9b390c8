/**
 * The event store: the `user_interactions` and `users` tables and the two
 * prepared statements that write them, `insertInteraction` and `upsertUser`.
 */
module EventStore {
  import opened Wrappers
  import opened Records

  /** The largest ROWID SQLite can assign, 2^63 - 1. */
  const MaxRowId: nat := 0x7FFF_FFFF_FFFF_FFFF

  predicate IdsAscending(log: seq<Interaction>)
  {
    forall i, j :: 0 <= i < j < |log| ==> log[i].id < log[j].id
  }

  class Store {
    /** The rows of `user_interactions`, in insertion (id) order. */
    var interactions: seq<Interaction>
    /** The rows of `users`, keyed by their primary key uid. */
    var users: map<string, User>
    /** The AUTOINCREMENT counter of `user_interactions` (its sqlite_sequence entry). */
    var lastId: nat

    ghost predicate Valid()
      reads this
    {
      && IdsAscending(interactions)
      && (forall r :: r in interactions ==> 0 < r.id <= lastId)
      && lastId <= MaxRowId
      && (forall uid :: uid in users ==> users[uid].uid == uid)
      // `PRAGMA foreign_keys = ON` enforces user_uid REFERENCES users(uid)
      && (forall r :: r in interactions ==> r.userUid in users)
    }

    constructor ()
      ensures Valid()
      ensures interactions == [] && users == map[] && lastId == 0
    {
      interactions, users, lastId := [], map[], 0;
    }

    /**
     * `INSERT INTO user_interactions (…) VALUES (…)`, record_date defaulting to
     * the clock reading `now`. Returns the new row's id (`lastInsertRowid`), or
     * None when the statement fails: the foreign key finds no user with that
     * uid, or AUTOINCREMENT has no id left (SQLITE_FULL). A failed statement
     * changes nothing.
     */
    method InsertInteraction(userUid: string, userDepartment: string, systemSection: string,
                             systemFunction: string, sessionId: Option<string>, ipAddress: Option<string>,
                             userAgent: Option<string>, now: Timestamp) returns (id: Option<nat>)
      requires Valid()
      modifies this
      ensures Valid()
      ensures users == old(users)
      ensures id.None? <==> userUid !in old(users) || old(lastId) == MaxRowId
      ensures id.None? ==> interactions == old(interactions) && lastId == old(lastId)
      ensures id.Some? ==> forall r :: r in old(interactions) ==> r.id < id.value
      ensures id.Some? ==> id.value == old(lastId) + 1 && lastId == id.value
      ensures id.Some? ==>
        interactions == old(interactions) + [Interaction(id.value, userUid, userDepartment, systemSection,
                                                         systemFunction, sessionId, ipAddress, userAgent, now)]
    {
      if userUid !in users || lastId == MaxRowId {
        return None;
      }
      lastId := lastId + 1;
      interactions := interactions + [Interaction(lastId, userUid, userDepartment, systemSection,
                                                  systemFunction, sessionId, ipAddress, userAgent, now)];
      id := Some(lastId);
    }

    /**
     * `INSERT OR REPLACE INTO users (uid, name, department, updated_at)`: any
     * row with that uid is deleted and a new one inserted, so created_at is
     * reset to the clock reading as well as updated_at.
     */
    method UpsertUser(uid: string, name: string, department: string, now: string)
      requires Valid()
      modifies this
      ensures Valid()
      ensures users == old(users)[uid := User(uid, name, department, now, now)]
      ensures interactions == old(interactions) && lastId == old(lastId)
    {
      users := users[uid := User(uid, name, department, now, now)];
    }
  }
}
