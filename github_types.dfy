/** The GitHub-derived shapes the routes return and the friends page consumes. */
module GithubTypes {

  import opened Options

  /** A user as the GitHub REST API lists it: the three fields the routes read. */
  datatype GitHubUser = GitHubUser(id: int, login: string, avatarUrl: string)

  /** `{ id, username, avatar }`. */
  datatype GitHubUserLite = GitHubUserLite(id: int, username: string, avatar: string)

  datatype GitHubConnections = GitHubConnections(
    followers: seq<GitHubUserLite>,
    following: seq<GitHubUserLite>,
    mutuals: seq<GitHubUserLite>)

  /** A lite user with the profile fields fetched for it. */
  datatype GitHubUserEnriched = GitHubUserEnriched(
    id: int,
    username: string,
    avatar: string,
    name: Option<string>,
    bio: Option<string>)

  /** An upstream response: a 2xx with its decoded list, or another status. */
  datatype Upstream<T> = Ok(body: T) | NotOk(status: int)
}
