/** The two tables of the event store as values: interaction records and users. */
module Records {
  import opened Wrappers

  /**
   * A stored `record_date`. `text` is the value as stored by CURRENT_TIMESTAMP
   * ("YYYY-MM-DD HH:MM:SS"); `day` and `hour` are what SQLite's `DATE(…)` and
   * `strftime('%H', …)` extract from it, supplied with the clock reading.
   */
  datatype Timestamp = Timestamp(text: string, day: string, hour: nat)

  /** A row of `user_interactions`. */
  datatype Interaction = Interaction(
    id: nat,
    userUid: string,
    userDepartment: string,
    systemSection: string,
    systemFunction: string,
    sessionId: Option<string>,
    ipAddress: Option<string>,
    userAgent: Option<string>,
    recordDate: Timestamp)

  /** A row of `users`; the timestamps are CURRENT_TIMESTAMP texts. */
  datatype User = User(uid: string, name: string, department: string, createdAt: string, updatedAt: string)
}
