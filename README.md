# reporter, modelled in Dafny

`reporter` is a command-line tool that reads a GitHub organisation or a single repository
through the GitHub REST API and prints activity summaries. It has three commands:

- `status` lists the open pull requests, with a summary of their reviews.
- `report` lists the merged pull requests closed during a period: the current day or the last
  week.
- `contrib` counts, per user, the merged pull requests they authored and the pull requests
  they reviewed, among those closed during a period, and the issues they reported that were
  closed during the period and assigned to someone else. It prints each user's counters and
  score. When a review was left or an issue opened plays no part.

This project models the date ranges and time filter of `filters.go`, and the core of
`main.go`. That core covers token lookup, repository resolution, the author filter and
the loops of the three commands. It also covers the `usersStats` table with its
`userStats` rendering and score.

Layout (one module per file):

- `Wrappers.dfy` holds `Option` and `Result`.
- `Text.dfy` holds the parts of Go's `strings` and `fmt` the code relies on. These are
  ASCII lower-casing, prefixes, byte length, `Split`/`Join` and `%d`.
- `Records.dfy` holds the API objects. The GitHub client is a record of functions, one per
  network call, each mapping its arguments to a value or an error.
- `Filters.dfy` models `filters.go`.
- `Resolve.dfy` models `token`, `repos` and `author`.
- `Stats.dfy` models `usersStats` as a class with a `map` field that its methods update in
  place, and `userStats` as a value.
- `Commands.dfy` models the three commands.
  - Each command is a method with the source's loops, proved equal to a left fold over the
    same inputs.
  - The outcome of `status` and `report` is the lines they printed and the error they
    stopped with, if any. Lines printed before an error stay printed. The outcome of
    `contrib` is the final table or the error.
- `ContribFacts.dfy` states what the `contrib` table counts. For each user it gives closed
  forms over the inputs, the filter quirk, and a worked example with three users.

Behaviours of the code that the model keeps:

- `contrib` compares the lower-cased author filter with the login as the API returned it
  (main.go:356, 363, 387), and keys the table by that raw login. `status` and `report`
  lower-case the login before comparing (main.go:192, 276). As a result, with a filter,
  `contrib` never credits a login containing an upper-case letter
  (`ContribFacts.ContribIgnoresMixedCaseLogin`).
- `author` drops a leading `@` only when `len` of the value, which counts bytes, exceeds
  two (main.go:157).
- `report` passes a pointer to `GetClosedAt()`. A pull request without a close time is
  therefore judged by Go's zero time (year 1), not treated as absent.
- The error text "Unkown range period: " keeps the source's spelling.

## Model

| member | source | states |
|---|---|---|
| Filters.Include | filters.go:50-101 | an absent time is included by no range |
| Filters.FixedIncludesExactly | filters.go:50-66 | the fixed range includes a time iff its date is 7-13 June 2020 |
| Filters.DailyIncludesSameDate | filters.go:73-89 | the daily range includes a time iff year, month and day equal the reference's; the reference itself is included |
| Filters.DailyDependsOnDateOnly | filters.go:73-89 | two references with the same date give the same daily range, and daily inclusion is symmetric |
| Filters.WeeklyIncludesAfterWeekAgo | filters.go:96-101 | the weekly range includes a time iff it is strictly after reference minus 7 days; exactly 7 days before is excluded, the reference and any later time are included |
| Filters.WeeklyUpwardClosed | filters.go:96-101 | a time later than an included time is included |
| Filters.ParseRange | filters.go:36-45 | success gives a daily or weekly range anchored at `now`; failure carries "Unkown range period: " and the name |
| Filters.ParseRangeNames | filters.go:36-45 | a name parses to a range iff it is exactly that range's name ("daily", "weekly") and the range is anchored at `now` |
| Filters.ParseRangeRejectsOtherCase | filters.go:36-45 | "Daily", "WEEKLY" and "" are rejected |
| Filters.CheckPr | filters.go:25-27 | a pull request passes iff the range includes its creation time, which is then present |
| Filters.CheckTicket | filters.go:21-23 | an issue passes iff the range includes its creation time, which is then present |
| Resolve.Token | main.go:117-130 | a non-empty flag wins, then a non-empty `GITHUB_TOKEN`; an error occurs iff both are empty and the file cannot be read, and then the message ends with the file path |
| Resolve.FirstAvailable | main.go:117-130 | the first source with a value is returned; none is returned iff no source has one |
| Resolve.TokenIsFirstAvailable | main.go:117-130 | the token is the first available of flag, environment and file, and the error case is exactly when none is available |
| Resolve.Repos | main.go:132-146 | two or more slashes give "Unexpected source string: " and the source; one slash gives at most one repository |
| Resolve.ReposOrganisation | main.go:133-136 | a source without a slash is passed whole to the organisation listing |
| Resolve.ReposSingle | main.go:137-142 | "owner/name" gives the error of the lookup or exactly the one repository it found |
| Resolve.Author | main.go:148-164 | "me" with a failed lookup passes the error on; any other flag succeeds; the result is lower case; "" stays "" (no filter); an empty result comes only from an empty name |
| Resolve.AuthorStripsAt | main.go:157-162 | a leading '@' on a value of more than two bytes is dropped, and the rest is lower-cased |
| Resolve.AuthorPlain | main.go:157-163 | a flag other than "me" that does not start with '@' is only lower-cased |
| Resolve.AuthorMe | main.go:150-156 | "me" is replaced by the authenticated user's login, which then goes through the same stripping and lower-casing as a given flag |
| Resolve.AuthorKeepsShortAt | main.go:157-159 | "@" and "@x" (x one byte) keep their '@' |
| Resolve.AuthorCountsBytes | main.go:157-159 | "@é" is three bytes long, so its '@' is dropped |
| Resolve.AuthorNormalises | main.go:148-164 | "me" with login "Foo", "@Foo" and "foo" resolve to the same filter "foo" |
| Text.ToLower | main.go:160-162 | each letter is lower-cased, nothing else changes, the length is kept |
| Text.ToLowerIsLower | main.go:160-162 | lower-casing yields a lower-case string and is idempotent |
| Text.ToLowerFixesLower | main.go:160-162 | lower-casing leaves a string unchanged iff it is already lower case |
| Text.Utf8Len | main.go:157 | the byte length is at least the character count, with equality iff every character is ASCII |
| Text.Split | main.go:133 | splitting gives one piece more than there are separators, and no piece holds a separator |
| Text.CountZero | main.go:133-134 | no separator means a count of zero, so the source is a single piece |
| Text.JoinSplit | main.go:133 | joining the pieces with the separator gives back the source string |
| Text.SplitJoin | main.go:133 | splitting a join of separator-free pieces gives the pieces back |
| Text.Decimal | main.go:436 | `%d` writes digits only, with no leading zero |
| Text.ParseDecimalOfDecimal | main.go:436 | reading back a `%d` numeral gives the number |
| Stats.Incr | main.go:414-427 | one contribution raises exactly the counter of its kind, by one, and the doubled score by its weight |
| Stats.Credit | main.go:414-427 | crediting a user adds the user to the keys, removes none, and applies `Incr` to that user's counters |
| Stats.CreditLookup | main.go:414-427 | crediting one user leaves every other user's counters unchanged |
| Stats.CreditKeepsNoZero | main.go:405-427 | a user enters the table only with a contribution: crediting keeps every stored record non-zero |
| Stats.UsersStats.constructor | main.go:321 | the table starts empty |
| Stats.UsersStats.Get | main.go:405-412 | returns the user's record; a new user gets a zero record inserted; nothing else changes |
| Stats.UsersStats.Review | main.go:414-417 | the table becomes `Credit(old table, name, ReviewKind)` |
| Stats.UsersStats.Pull | main.go:419-422 | the table becomes `Credit(old table, name, PullKind)` |
| Stats.UsersStats.Issue | main.go:424-427 | the table becomes `Credit(old table, name, IssueKind)` |
| Stats.RenderInjective | main.go:435-437 | "pr=%d rev=%d tic=%d" is injective: the counters can be read back from the text |
| Stats.ScoreTextReadsBack | main.go:439-441 | the printed score reads back as pulls + (reviews + issues)/2 |
| Stats.RenderThenInjective | main.go:435-437 | the "pr=%d rev=%d tic=%d" text followed by any non-digit text still gives the three counters back |
| Stats.ReportLineInjective | main.go:397-399 | a user's printed line "name - counters (score)" gives their counters back |
| Commands.BotExcluded | main.go:189-191 | a pull request whose author's login starts with "dependabot" is never shown by `status` (main.go:189-191) or reported by `report` (main.go:273-275), and `contrib` neither lists its reviews nor credits anyone for it (main.go:332-334); the issue loop has no such check (main.go:378-389, see `ContribFacts.BotIssueCounted`) |
| Commands.DependabotPreviewIsBot | main.go:189 | "dependabot-preview[bot]" is a bot login |
| Commands.ReviewEntriesConcat | main.go:213-220 | the review summary of a concatenation is the concatenation of the summaries |
| Commands.ReviewEntriesOmit | main.go:214-217 | dismissed and commenting reviews leave no trace in the summary |
| Commands.RevStat | main.go:213-220 | the `revstat` loop produces "[" + "login:STATE," per shown review + "]" |
| Commands.StatPullsSticky | main.go:208-212 | after a failed review listing, later pull requests change nothing |
| Commands.StatReposSticky | main.go:183-187 | after a failure, later repositories change nothing |
| Commands.StatRepo | main.go:188-229 | the inner loop of `status` computes the fold `StatPulls` over the open pull requests |
| Commands.CmdStat | main.go:166-236 | `status` prints the header, then exactly what `StatReport` specifies, stopping at the first error |
| Commands.StatPullsCount | main.go:188-229 | without a failure, one line per shown pull request |
| Commands.StatReposCount | main.go:182-230 | without a failure, the lines number the shown pull requests over all repositories |
| Commands.StatSkips | main.go:189-197 | a bot's, another author's or a draft pull request adds no line and triggers no fetch |
| Commands.StatReportShape | main.go:231-234 | a completed `status` prints the header, then one line per shown pull request, or exactly " - None ;)" when none is shown |
| Commands.ReportRepo | main.go:264-291 | the inner loop of `report` produces the lines of the fold `RepPulls` |
| Commands.CmdRep | main.go:238-298 | `report` prints exactly what `RepReport` specifies, stopping at the first error |
| Commands.RepReposSticky | main.go:259-263 | after a failed listing, later repositories change nothing |
| Commands.RepPullsLines | main.go:264-291 | the lines number the reported pull requests; each reported pull request has its line, and every line belongs to a reported pull request |
| Commands.RepReposCount | main.go:258-292 | without a failure, the lines number the reported pull requests over all repositories |
| Commands.RepReportShape | main.go:293-296 | a completed `report` prints one line per reported pull request, or exactly " - Nothing ;)" |
| Commands.RepSkipsUnmerged | main.go:267-269 | an unmerged pull request is never reported, whenever it closed |
| Commands.RepUnclosedNotReported | main.go:265-272 | a pull request without a close time is judged by the zero time, which daily and weekly ranges of present-day references exclude |
| Commands.CollectReviewers | main.go:341-354 | the `reviewers` set is the set of members who approved or requested changes |
| Commands.CreditReviews | main.go:355-359 | crediting a set of reviewers adds them to the keys |
| Commands.CreditReviewsLookup | main.go:355-359 | each credited reviewer has exactly one review more; everybody else is unchanged |
| Commands.CreditReviewsStep | main.go:355-359 | crediting one more reviewer is one `review` call, whatever the order |
| Commands.CreditReviewers | main.go:355-359 | the loop over the `reviewers` set, in any order, credits one review to each reviewer the filter lets through |
| Commands.ContribPullsSticky | main.go:335-339 | after a failed review listing, later pull requests change nothing |
| Commands.ContribReposSticky | main.go:323-327 | after a failed listing, later repositories change nothing |
| Commands.ContribRepo | main.go:328-370 | the loop of `contrib` over one repository's closed pull requests updates the table as the fold `ContribPulls` does, and returns its error |
| Commands.CreditIssues | main.go:378-394 | the loop over the organisation's closed issues updates the table as the fold `ContribIssues` does |
| Commands.CmdContribs | main.go:300-401 | `contrib` ends with exactly the table, or the error, that `ContribReport` specifies |
| ContribFacts.QualifiedSingle | main.go:341-354 | one qualifying review makes its author the only reviewer |
| ContribFacts.ReviewersLookup | main.go:341-359 | each member who approved or requested changes gets one review, if the filter lets them through; nobody else changes |
| ContribFacts.CreditPullLookup | main.go:361-365 | a merged pull request credits one pull to its author, if the filter lets them through, and nothing to anybody else |
| ContribFacts.CreditReviewedPull | main.go:355-365 | reviewers first, then the merged pull request's author: a user the filter lets through gains one pull if they authored the merged pull request and one review if they qualified as a reviewer, and anybody else is unchanged |
| ContribFacts.ContribPullCredits | main.go:341-369 | one pull request: its author gets one pull if it was merged; each qualifying reviewer gets one review however many reviews they left; nobody gets an issue; only users the filter lets through change |
| ContribFacts.ContribPullsCounts | main.go:328-370 | over one repository, each user gains their merged pull requests and the pull requests they reviewed, if the filter lets them through |
| ContribFacts.ContribReposCounts | main.go:322-372 | over all repositories, each user's counters are the sums of those counts |
| ContribFacts.ContribIssueCredits | main.go:378-390 | one issue adds one issue to its reporter when it was closed in the range, has an assignee other than the reporter, and the filter lets the reporter through; nobody else changes |
| ContribFacts.IssueJudgedByCloseTime | main.go:378-389 | an issue counts by its close time, whatever its creation time: an open issue is never credited, and one closed in the range and assigned to someone else credits its reporter one issue |
| ContribFacts.BotIssueCounted | main.go:378-389 | the issue loop has no bot check: an issue reported by "dependabot[bot]", closed in the range and assigned to someone else, credits the bot one issue |
| ContribFacts.ContribIssuesCounts | main.go:378-394 | each counted issue (closed in the range, assigned to someone else) adds one issue to its reporter, if the filter lets them through |
| ContribFacts.CreditReviewsKeepsNoZero | main.go:355-359 | crediting reviewers keeps every stored record non-zero |
| ContribFacts.ContribPullKeepsNoZero | main.go:330-369 | one pull request keeps every stored record non-zero |
| ContribFacts.ContribPullsKeepsNoZero | main.go:328-370 | one repository's pull requests keep every stored record non-zero |
| ContribFacts.ContribReposKeepsNoZero | main.go:321-372 | after the repositories, every stored record is non-zero |
| ContribFacts.ContribIssuesKeepsNoZero | main.go:378-394 | the issues keep every stored record non-zero |
| ContribFacts.ContribReportCounts | main.go:300-401 | the final table gives each user their merged pull requests, reviewed pull requests and reported issues, and zero to a user the filter excludes |
| ContribFacts.ContribReportKeys | main.go:300-401 | a user is in the final table, and so printed (main.go:397-399), iff their counters are not zero, that is iff the filter lets them through and they have at least one contribution |
| ContribFacts.ReviewsAtMostOncePerPull | main.go:341-359 | a user's reviews grow by at most one per pull request |
| ContribFacts.ContribIgnoresMixedCaseLogin | main.go:355-365 | with a filter, a login that holds an upper-case letter is never credited |
| ContribFacts.SingletonWorldRuns | main.go:300-401 | for the "weekly" period, no author flag and an organisation source without '/' that lists one repository with one closed pull request and one issue, and no failing call, `contrib` succeeds |
| ContribFacts.SingletonWorldCounts | main.go:300-401 | in that world ("weekly" period, no author flag, an organisation source without '/'), each user's counters come from that one pull request and that one issue |
| ContribFacts.AggregationScenario | main.go:300-441 | worked example: bob ends with one pull and one issue (score 1.5), alice with one review (score 0.5), carol with nothing |

## Left out

- CLI wiring (urfave/cli, `main`) and client construction in `setup` (main.go:23-115). They are framework plumbing.
- The network client. Each call is a function of its arguments held in `Records.GitHub`. Paging, rate limits and what the server does are not modelled.
- `os.Getenv` and `ioutil.ReadFile` in `token`. They are the parameters `getenv` and `readFile`.
- `time.Now()` and Go's calendar conversion. The current instant is a parameter, and an instant carries the date `Date()` reports for it. Time zones and the monotonic clock are not modelled.
- The spinner, `spin.ClearLine` and the verbose prints of `contrib`. They are terminal output only.
- `contrib`'s header line "Contributors statistics:" and its final printout. The final printout runs in map iteration order, which Go leaves unspecified. The model returns the final table. `Stats.ReportLine` renders one printed line, and `Stats.ReportLineInjective` shows that the line gives the counters back.
- `Text.ToLower`: lower-cases ASCII letters only. Go's `strings.ToLower` also maps non-ASCII letters.
- `Stats.Incr`: counters are unbounded naturals. The 64-bit `uint` wrap-around of the source is not modelled.
- `Stats.ScoreTextReadsBack`: the score is kept as twice `sum()`, a natural number. The `float32` result and its `%f` text agree with it only while the score is below 2^23: from there on a `float32` holds whole numbers only, so a half is lost.
- A pull request, review or issue whose user is nil has the login "" (what `GetLogin` returns). A nil assignee is `None`.
- The `*userStats` pointers in the table are modelled as values in a map. No caller keeps a pointer across calls, so no aliasing is lost.
- `Resolve.Repos`: its own contract covers the slash counts only. What the organisation listing and the single lookup return is in `Resolve.ReposOrganisation` and `Resolve.ReposSingle`.
