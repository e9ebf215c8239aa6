/** The one repository call the core depends on, `find_by_email` of
    src/repositories/user.rs, over an in-memory table keyed by email. */
module UserRepository {
  import opened Wrappers
  import opened Entities

  /** How one `SELECT` round trip to the database ended. */
  datatype QueryOutcome = Answered | QueryFailed(reason: string)

  /** `find_by_email`: the row stored under `email`. A failed query is
      reported as "no such user" (`unwrap_or(None)`). */
  function FindByEmail(users: map<string, User>, email: string, query: QueryOutcome): (r: Option<User>)
    ensures r.Some? <==> query.Answered? && email in users
    ensures r.Some? ==> r.value == users[email]
  {
    if query.Answered? && email in users then Some(users[email]) else None
  }

  /** The table is keyed by email: every row sits under its own email, as the
      unique index on `users.email` keeps it. */
  ghost predicate KeyedByEmail(users: map<string, User>)
  {
    forall email :: email in users ==> users[email].email == email
  }
}
