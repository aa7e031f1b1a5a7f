/**
 * The read-only views of the objects the hosting platform's client returns, and the
 * client itself as a record of functions: each network call becomes a function from
 * its arguments to what the call returned (a value or an error).
 */
module Records {
  import opened Wrappers

  /**
   * A point in time: the instant, in nanoseconds since 1970-01-01T00:00:00 UTC, and the
   * calendar date that Go's `Date()` reports for it in the time's own location.
   */
  datatype Instant = Instant(nanos: int, year: int, month: int, day: int)

  /** Go's zero `time.Time`: 0001-01-01 00:00:00 UTC. */
  const ZERO_TIME := Instant(-62135596800 * 1_000_000_000, 1, 1, 1)

  datatype Repo = Repo(owner: string, name: string)

  /** A pull request; `login` is the author's login ("" when the user is missing). */
  datatype PullRequest = PullRequest(
    number: int,
    title: string,
    login: string,
    state: string,
    merged: bool,
    draft: bool,
    assignee: Option<string>,
    htmlUrl: string,
    createdAt: Option<Instant>,
    closedAt: Option<Instant>,
    mergedAt: Option<Instant>)

  /** A review of a pull request; `association` is the reviewer's author association. */
  datatype Review = Review(login: string, state: string, association: string, htmlUrl: string)

  /** An issue ("ticket"); `login` is the reporter, `assignee` the assignee's login. */
  datatype Issue = Issue(
    login: string,
    assignee: Option<string>,
    htmlUrl: string,
    createdAt: Option<Instant>,
    closedAt: Option<Instant>)

  /** The two pull-request listings the commands ask for. */
  datatype PullQuery = OpenByUpdate | Closed

  /** The hosting platform's client, one function per call the reporter makes. */
  datatype GitHub = GitHub(
    listByOrg: string -> Result<seq<Repo>>,
    getRepo: (string, string) -> Result<Repo>,
    listPulls: (Repo, PullQuery) -> Result<seq<PullRequest>>,
    listReviews: (Repo, int) -> Result<seq<Review>>,
    authenticatedLogin: Result<string>,
    orgIssues: string -> Result<seq<Issue>>)
}
