/**
 * The session the route handlers read from `auth()`, reduced to the fields they use. A missing
 * session is `None`; a missing or empty string field is falsy, as in the source's `?.` checks.
 */
module Auth {

  import opened Options
  import opened Strings
  import Schema

  datatype SessionUser = SessionUser(
    id: Option<string>,
    dbId: Option<Schema.Id>,
    username: Option<string>)

  datatype Session = Session(user: SessionUser, accessToken: Option<string>)

  /** `session?.user.username` is truthy. */
  predicate HasUsername(session: Option<Session>) {
    session.Some? && Truthy(session.value.user.username)
  }

  /** `session?.user?.id` is truthy. */
  predicate HasUserId(session: Option<Session>) {
    session.Some? && Truthy(session.value.user.id)
  }

  /** `session?.user?.dbId` is present. */
  predicate HasDbId(session: Option<Session>) {
    session.Some? && session.value.user.dbId.Some?
  }

  /** `session?.accessToken` is truthy. */
  predicate HasAccessToken(session: Option<Session>) {
    session.Some? && Truthy(session.value.accessToken)
  }
}
