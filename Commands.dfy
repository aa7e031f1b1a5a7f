/**
 * The three commands: `status` lists open pull requests, `report` lists merged pull
 * requests of a period, `contrib` counts each user's contributions of a period.
 *
 * Each command is a method with the source's loops; the function beside it folds over the
 * same inputs from left to right and is what the method is proved to compute. Lines a
 * command printed stay printed when a later call fails, so a command's outcome is the
 * lines it printed and the error it stopped with, if any.
 */
module Commands {
  import opened Wrappers
  import opened Text
  import opened Records
  import opened Filters
  import opened Resolve
  import opened Stats

  datatype Output = Output(lines: seq<string>, failure: Option<string>)

  const BOT_PREFIX := "dependabot"
  const STAT_HEADER := "Active pull requests:"
  const STAT_NONE := " - None ;)"
  const REP_NOTHING := " - Nothing ;)"

  /** Logins of the dependency-update bot. */
  predicate IsBot(login: string) {
    HasPrefix(login, BOT_PREFIX)
  }

  /** The author filter of `status` and `report`: "" or the lower-cased login. */
  predicate MatchesLowered(author: string, login: string) {
    author == "" || author == ToLower(login)
  }

  /** The author filter of `contrib`: "" or the login exactly as it is. */
  predicate MatchesRaw(author: string, login: string) {
    author == "" || author == login
  }

  /** A bot's pull request is never shown, reported or counted, whatever the author filter. */
  lemma BotExcluded(author: string, rng: DateRange, pr: PullRequest)
    requires IsBot(pr.login)
    ensures !StatShows(author, pr) && !RepReports(rng, author, pr) && !Contributes(rng, pr)
  {
  }

  lemma DependabotPreviewIsBot()
    ensures IsBot("dependabot-preview[bot]")
  {
    assert "dependabot-preview[bot]"[..|BOT_PREFIX|] == BOT_PREFIX;
  }

  // ===========================================================================
  // status

  /** The pull requests `status` shows: not the bot's, by the filtered author, not drafts. */
  predicate StatShows(author: string, pr: PullRequest) {
    !IsBot(pr.login) && MatchesLowered(author, pr.login) && !pr.draft
  }

  function PrState(pr: PullRequest): string {
    if pr.merged then pr.state + ":merged" else pr.state
  }

  function AssigneeText(pr: PullRequest): string {
    match pr.assignee
    case Some(a) => "(a:@" + a + ")"
    case None => "(a:0)"
  }

  /** Dismissed reviews and bare comments are left out of the review summary. */
  predicate ShowsReview(rev: Review) {
    rev.state != "DISMISSED" && rev.state != "COMMENTED"
  }

  function ReviewEntry(rev: Review): string {
    rev.login + ":" + rev.state + ","
  }

  /** "login:STATE," for each shown review, in order. */
  function ReviewEntries(revs: seq<Review>): string {
    if revs == [] then ""
    else (if ShowsReview(revs[0]) then ReviewEntry(revs[0]) else "") + ReviewEntries(revs[1..])
  }

  lemma {:induction false} ReviewEntriesConcat(a: seq<Review>, b: seq<Review>)
    ensures ReviewEntries(a + b) == ReviewEntries(a) + ReviewEntries(b)
  {
    if a != [] {
      assert (a + b)[0] == a[0];
      assert (a + b)[1..] == a[1..] + b;
      ReviewEntriesConcat(a[1..], b);
    } else {
      assert a + b == b;
    }
  }

  /** A dismissed or commenting review leaves no trace in the summary. */
  lemma ReviewEntriesOmit(a: seq<Review>, rev: Review, b: seq<Review>)
    requires !ShowsReview(rev)
    ensures ReviewEntries(a + [rev] + b) == ReviewEntries(a + b)
  {
    ReviewEntriesConcat(a + [rev], b);
    ReviewEntriesConcat(a, [rev]);
    ReviewEntriesConcat(a, b);
    assert [rev][1..] == [];
  }

  function RevStatText(revs: seq<Review>): string {
    "[" + ReviewEntries(revs) + "]"
  }

  /** The `revstat` accumulator of `status`. */
  method RevStat(revs: seq<Review>) returns (s: string)
    ensures s == RevStatText(revs)
  {
    s := "[";
    for i := 0 to |revs|
      invariant s == "[" + ReviewEntries(revs[..i])
    {
      var rev := revs[i];
      ReviewEntriesConcat(revs[..i], [rev]);
      assert revs[..i + 1] == revs[..i] + [rev];
      assert [rev][1..] == [];
      if rev.state == "DISMISSED" || rev.state == "COMMENTED" {
        continue;
      }
      AppendAssoc("[", ReviewEntries(revs[..i]), ReviewEntry(rev));
      s := s + (rev.login + ":" + rev.state + ",");
    }
    assert revs[..|revs|] == revs;
    s := s + "]";
  }

  function StatLine(pr: PullRequest, revs: seq<Review>): string {
    " - " + pr.title + " (" + PrState(pr) + ", " + RevStatText(revs) + ") by @" + pr.login
    + " " + AssigneeText(pr) + " " + pr.htmlUrl
  }

  /** `status` on one pull request, after the lines printed so far. */
  function StatPull(gh: GitHub, repo: Repo, author: string, lines: seq<string>, pr: PullRequest): Output {
    if !StatShows(author, pr) then Output(lines, None)
    else
      match gh.listReviews(repo, pr.number)
      case Failure(e) => Output(lines, Some(e))
      case Success(revs) => Output(lines + [StatLine(pr, revs)], None)
  }

  /** `status` over one repository's open pull requests, left to right. */
  function StatPulls(gh: GitHub, repo: Repo, author: string, prs: seq<PullRequest>): Output
    decreases |prs|
  {
    if prs == [] then Output([], None)
    else
      var o := StatPulls(gh, repo, author, prs[..|prs| - 1]);
      if o.failure.Some? then o else StatPull(gh, repo, author, o.lines, prs[|prs| - 1])
  }

  lemma StatPullsNext(gh: GitHub, repo: Repo, author: string, prs: seq<PullRequest>, j: nat, lines: seq<string>)
    requires j < |prs|
    requires StatPulls(gh, repo, author, prs[..j]) == Output(lines, None)
    ensures StatPulls(gh, repo, author, prs[..j + 1]) == StatPull(gh, repo, author, lines, prs[j])
  {
    assert prs[..j + 1][..j] == prs[..j];
  }

  /** `status` on one repository, after the lines printed so far. */
  function StatListed(gh: GitHub, author: string, lines: seq<string>, repo: Repo): Output {
    match gh.listPulls(repo, OpenByUpdate)
    case Failure(e) => Output(lines, Some(e))
    case Success(prs) =>
      var p := StatPulls(gh, repo, author, prs);
      Output(lines + p.lines, p.failure)
  }

  /** `status` over the repositories, left to right. */
  function StatRepos(gh: GitHub, author: string, repos: seq<Repo>): Output
    decreases |repos|
  {
    if repos == [] then Output([], None)
    else
      var o := StatRepos(gh, author, repos[..|repos| - 1]);
      if o.failure.Some? then o else StatListed(gh, author, o.lines, repos[|repos| - 1])
  }

  lemma StatReposNext(gh: GitHub, author: string, repos: seq<Repo>, i: nat, lines: seq<string>)
    requires i < |repos|
    requires StatRepos(gh, author, repos[..i]) == Output(lines, None)
    ensures StatRepos(gh, author, repos[..i + 1]) == StatListed(gh, author, lines, repos[i])
  {
    assert repos[..i + 1][..i] == repos[..i];
  }

  /** `cmdStat`: the header, a line per shown pull request, or the placeholder. */
  function StatReport(gh: GitHub, source: string, authorFlag: string): Output {
    match Repos(gh, source)
    case Failure(e) => Output([STAT_HEADER], Some(e))
    case Success(repos) =>
      match Author(authorFlag, gh.authenticatedLogin)
      case Failure(e) => Output([STAT_HEADER], Some(e))
      case Success(author) =>
        var o := StatRepos(gh, author, repos);
        Output([STAT_HEADER] + o.lines + (if o.failure.None? && o.lines == [] then [STAT_NONE] else []),
               o.failure)
  }

  lemma {:induction false} StatPullsSticky(gh: GitHub, repo: Repo, author: string, prs: seq<PullRequest>, k: nat)
    requires k <= |prs|
    requires StatPulls(gh, repo, author, prs[..k]).failure.Some?
    ensures StatPulls(gh, repo, author, prs) == StatPulls(gh, repo, author, prs[..k])
    decreases |prs|
  {
    if k < |prs| {
      assert prs[..|prs| - 1][..k] == prs[..k];
      StatPullsSticky(gh, repo, author, prs[..|prs| - 1], k);
    } else {
      assert prs[..k] == prs;
    }
  }

  lemma {:induction false} StatReposSticky(gh: GitHub, author: string, repos: seq<Repo>, k: nat)
    requires k <= |repos|
    requires StatRepos(gh, author, repos[..k]).failure.Some?
    ensures StatRepos(gh, author, repos) == StatRepos(gh, author, repos[..k])
    decreases |repos|
  {
    if k < |repos| {
      assert repos[..|repos| - 1][..k] == repos[..k];
      StatReposSticky(gh, author, repos[..|repos| - 1], k);
    } else {
      assert repos[..k] == repos;
    }
  }

  lemma AppendAssoc<T>(a: seq<T>, b: seq<T>, c: seq<T>)
    ensures (a + b) + c == a + (b + c)
  {
  }

  /** The loop of `cmdStat` over one repository's open pull requests. */
  method StatRepo(gh: GitHub, repo: Repo, author: string, prs: seq<PullRequest>) returns (out: Output)
    ensures out == StatPulls(gh, repo, author, prs)
  {
    var lines: seq<string> := [];
    for j := 0 to |prs|
      invariant StatPulls(gh, repo, author, prs[..j]) == Output(lines, None)
    {
      var pr := prs[j];
      StatPullsNext(gh, repo, author, prs, j, lines);
      if HasPrefix(pr.login, BOT_PREFIX) {
        continue;
      }
      if author != "" && author != ToLower(pr.login) {
        continue;
      }
      if pr.draft {
        continue;
      }
      var state := pr.state;
      if pr.merged {
        state := state + ":merged";
      }
      var assignee;
      if pr.assignee.Some? {
        assignee := "(a:@" + pr.assignee.value + ")";
      } else {
        assignee := "(a:0)";
      }
      var fetched := gh.listReviews(repo, pr.number);
      if fetched.Failure? {
        StatPullsSticky(gh, repo, author, prs, j + 1);
        return Output(lines, Some(fetched.error));
      }
      var revstat := RevStat(fetched.value);
      lines := lines + [" - " + pr.title + " (" + state + ", " + revstat + ") by @" + pr.login
                        + " " + assignee + " " + pr.htmlUrl];
    }
    assert prs[..|prs|] == prs;
    out := Output(lines, None);
  }

  /** `cmdStat`. */
  method CmdStat(gh: GitHub, source: string, authorFlag: string) returns (out: Output)
    ensures out == StatReport(gh, source, authorFlag)
  {
    var lines := [STAT_HEADER];
    var targets := Repos(gh, source);
    if targets.Failure? {
      return Output(lines, Some(targets.error));
    }
    var repos := targets.value;
    var resolved := Author(authorFlag, gh.authenticatedLogin);
    if resolved.Failure? {
      return Output(lines, Some(resolved.error));
    }
    var author := resolved.value;
    var empty := true;
    ghost var body: seq<string> := [];
    for i := 0 to |repos|
      invariant StatRepos(gh, author, repos[..i]) == Output(body, None)
      invariant lines == [STAT_HEADER] + body
      invariant empty <==> body == []
    {
      var repo := repos[i];
      StatReposNext(gh, author, repos, i, body);
      var listed := gh.listPulls(repo, OpenByUpdate);
      if listed.Failure? {
        StatReposSticky(gh, author, repos, i + 1);
        return Output(lines, Some(listed.error));
      }
      var shown := StatRepo(gh, repo, author, listed.value);
      AppendAssoc([STAT_HEADER], body, shown.lines);
      lines := lines + shown.lines;
      body := body + shown.lines;
      if shown.lines != [] {
        empty := false;
      }
      if shown.failure.Some? {
        StatReposSticky(gh, author, repos, i + 1);
        return Output(lines, shown.failure);
      }
    }
    assert repos[..|repos|] == repos;
    if empty {
      lines := lines + [STAT_NONE];
    }
    out := Output(lines, None);
  }

  /** How many of `prs` `status` shows. */
  function CountShown(author: string, prs: seq<PullRequest>): nat
    decreases |prs|
  {
    if prs == [] then 0
    else CountShown(author, prs[..|prs| - 1]) + (if StatShows(author, prs[|prs| - 1]) then 1 else 0)
  }

  /** How many pull requests `status` shows across the repositories. */
  function ShownAcross(gh: GitHub, author: string, repos: seq<Repo>): nat
    decreases |repos|
  {
    if repos == [] then 0
    else
      var repo := repos[|repos| - 1];
      ShownAcross(gh, author, repos[..|repos| - 1])
      + match gh.listPulls(repo, OpenByUpdate)
        case Success(prs) => CountShown(author, prs)
        case Failure(_) => 0
  }

  /** Without a failure, one line per shown pull request. */
  lemma {:induction false} StatPullsCount(gh: GitHub, repo: Repo, author: string, prs: seq<PullRequest>)
    requires StatPulls(gh, repo, author, prs).failure == None
    ensures |StatPulls(gh, repo, author, prs).lines| == CountShown(author, prs)
    decreases |prs|
  {
    if prs != [] {
      StatPullsCount(gh, repo, author, prs[..|prs| - 1]);
    }
  }

  lemma {:induction false} StatReposCount(gh: GitHub, author: string, repos: seq<Repo>)
    requires StatRepos(gh, author, repos).failure == None
    ensures |StatRepos(gh, author, repos).lines| == ShownAcross(gh, author, repos)
    decreases |repos|
  {
    if repos != [] {
      StatReposCount(gh, author, repos[..|repos| - 1]);
      var repo := repos[|repos| - 1];
      if gh.listPulls(repo, OpenByUpdate).Success? {
        StatPullsCount(gh, repo, author, gh.listPulls(repo, OpenByUpdate).value);
      }
    }
  }

  /** A pull request `status` does not show adds nothing and fetches nothing. */
  lemma StatSkips(gh: GitHub, repo: Repo, author: string, prs: seq<PullRequest>, pr: PullRequest)
    requires !StatShows(author, pr)
    ensures StatPulls(gh, repo, author, prs + [pr]) == StatPulls(gh, repo, author, prs)
  {
    assert (prs + [pr])[..|prs|] == prs;
  }

  /**
   * A completed `status` prints the header and then either one line per shown pull request
   * or exactly the placeholder.
   */
  lemma StatReportShape(gh: GitHub, source: string, authorFlag: string)
    requires StatReport(gh, source, authorFlag).failure == None
    ensures Repos(gh, source).Success? && Author(authorFlag, gh.authenticatedLogin).Success?
    ensures var shown := ShownAcross(gh, Author(authorFlag, gh.authenticatedLogin).value, Repos(gh, source).value);
            var lines := StatReport(gh, source, authorFlag).lines;
            lines[0] == STAT_HEADER
            && (shown == 0 ==> lines == [STAT_HEADER, STAT_NONE])
            && (shown > 0 ==> |lines| == 1 + shown)
  {
    var author := Author(authorFlag, gh.authenticatedLogin).value;
    StatReposCount(gh, author, Repos(gh, source).value);
  }

  // ===========================================================================
  // report

  /** `report` passes a pointer to the close time, the zero time when there is none. */
  function ClosedOrZero(pr: PullRequest): Instant {
    match pr.closedAt
    case Some(t) => t
    case None => ZERO_TIME
  }

  /** The pull requests `report` lists: merged, closed in the range, not the bot's, by the author. */
  predicate RepReports(rng: DateRange, author: string, pr: PullRequest) {
    pr.mergedAt.Some? && Include(rng, Some(ClosedOrZero(pr))) && !IsBot(pr.login)
    && MatchesLowered(author, pr.login)
  }

  /** " - <title> @<login>: <url>", without " @<login>" when `--authors` is set. */
  function RepLine(pr: PullRequest, authors: bool): string {
    " - " + pr.title + (if !authors then " @" + pr.login else "") + ": " + pr.htmlUrl
  }

  function RepPulls(rng: DateRange, author: string, authors: bool, prs: seq<PullRequest>): seq<string>
    decreases |prs|
  {
    if prs == [] then []
    else
      var pr := prs[|prs| - 1];
      RepPulls(rng, author, authors, prs[..|prs| - 1])
      + (if RepReports(rng, author, pr) then [RepLine(pr, authors)] else [])
  }

  /** `rep` on one repository, after the lines printed so far. */
  function RepRepo(gh: GitHub, rng: DateRange, author: string, authors: bool, lines: seq<string>, repo: Repo): Output
  {
    match gh.listPulls(repo, Closed)
    case Failure(e) => Output(lines, Some(e))
    case Success(prs) => Output(lines + RepPulls(rng, author, authors, prs), None)
  }

  function RepRepos(gh: GitHub, rng: DateRange, author: string, authors: bool, repos: seq<Repo>): Output
    decreases |repos|
  {
    if repos == [] then Output([], None)
    else
      var o := RepRepos(gh, rng, author, authors, repos[..|repos| - 1]);
      if o.failure.Some? then o else RepRepo(gh, rng, author, authors, o.lines, repos[|repos| - 1])
  }

  lemma RepReposNext(gh: GitHub, rng: DateRange, author: string, authors: bool, repos: seq<Repo>, i: nat,
                     lines: seq<string>)
    requires i < |repos|
    requires RepRepos(gh, rng, author, authors, repos[..i]) == Output(lines, None)
    ensures RepRepos(gh, rng, author, authors, repos[..i + 1]) == RepRepo(gh, rng, author, authors, lines, repos[i])
  {
    assert repos[..i + 1][..i] == repos[..i];
  }

  /** `cmdRep`: a line per reported pull request, or the placeholder. */
  function RepReport(gh: GitHub, period: string, now: Instant, source: string, authorFlag: string,
                     authors: bool): Output
  {
    match ParseRange(period, now)
    case Failure(e) => Output([], Some(e))
    case Success(rng) =>
      match Repos(gh, source)
      case Failure(e) => Output([], Some(e))
      case Success(repos) =>
        match Author(authorFlag, gh.authenticatedLogin)
        case Failure(e) => Output([], Some(e))
        case Success(author) =>
          var o := RepRepos(gh, rng, author, authors, repos);
          Output(o.lines + (if o.failure.None? && o.lines == [] then [REP_NOTHING] else []), o.failure)
  }

  lemma {:induction false} RepReposSticky(gh: GitHub, rng: DateRange, author: string, authors: bool,
                                          repos: seq<Repo>, k: nat)
    requires k <= |repos|
    requires RepRepos(gh, rng, author, authors, repos[..k]).failure.Some?
    ensures RepRepos(gh, rng, author, authors, repos) == RepRepos(gh, rng, author, authors, repos[..k])
    decreases |repos|
  {
    if k < |repos| {
      assert repos[..|repos| - 1][..k] == repos[..k];
      RepReposSticky(gh, rng, author, authors, repos[..|repos| - 1], k);
    } else {
      assert repos[..k] == repos;
    }
  }

  /** The loop of `cmdRep` over one repository's closed pull requests, with its line buffer. */
  method ReportRepo(rng: DateRange, author: string, authors: bool, prs: seq<PullRequest>)
    returns (lines: seq<string>)
    ensures lines == RepPulls(rng, author, authors, prs)
  {
    lines := [];
    var line := "";
    for j := 0 to |prs|
      invariant lines == RepPulls(rng, author, authors, prs[..j])
      invariant line == ""
    {
      var pr := prs[j];
      assert prs[..j + 1][..j] == prs[..j];
      var closed := ClosedOrZero(pr);
      if pr.mergedAt.None? {
        continue;
      }
      if !Include(rng, Some(closed)) {
        continue;
      }
      if HasPrefix(pr.login, BOT_PREFIX) {
        continue;
      }
      if author != "" && author != ToLower(pr.login) {
        continue;
      }
      line := line + " - ";
      line := line + pr.title;
      if !authors {
        line := line + " @";
        line := line + pr.login;
      }
      line := line + ": ";
      line := line + pr.htmlUrl;
      assert line == RepLine(pr, authors);
      lines := lines + [line];
      line := "";
    }
    assert prs[..|prs|] == prs;
  }

  /** `cmdRep` (the `now` of `ParseRange` is a parameter). */
  method CmdRep(gh: GitHub, period: string, now: Instant, source: string, authorFlag: string,
                authors: bool) returns (out: Output)
    ensures out == RepReport(gh, period, now, source, authorFlag, authors)
  {
    var parsed := ParseRange(period, now);
    if parsed.Failure? {
      return Output([], Some(parsed.error));
    }
    var rng := parsed.value;
    var targets := Repos(gh, source);
    if targets.Failure? {
      return Output([], Some(targets.error));
    }
    var repos := targets.value;
    var resolved := Author(authorFlag, gh.authenticatedLogin);
    if resolved.Failure? {
      return Output([], Some(resolved.error));
    }
    var author := resolved.value;
    var empty := true;
    var lines: seq<string> := [];
    for i := 0 to |repos|
      invariant RepRepos(gh, rng, author, authors, repos[..i]) == Output(lines, None)
      invariant empty <==> lines == []
    {
      var repo := repos[i];
      RepReposNext(gh, rng, author, authors, repos, i, lines);
      var listed := gh.listPulls(repo, Closed);
      if listed.Failure? {
        RepReposSticky(gh, rng, author, authors, repos, i + 1);
        return Output(lines, Some(listed.error));
      }
      var reported := ReportRepo(rng, author, authors, listed.value);
      lines := lines + reported;
      if reported != [] {
        empty := false;
      }
    }
    assert repos[..|repos|] == repos;
    if empty {
      lines := lines + [REP_NOTHING];
    }
    out := Output(lines, None);
  }

  function CountReported(rng: DateRange, author: string, prs: seq<PullRequest>): nat
    decreases |prs|
  {
    if prs == [] then 0
    else CountReported(rng, author, prs[..|prs| - 1]) + (if RepReports(rng, author, prs[|prs| - 1]) then 1 else 0)
  }

  function ReportedAcross(gh: GitHub, rng: DateRange, author: string, repos: seq<Repo>): nat
    decreases |repos|
  {
    if repos == [] then 0
    else
      var repo := repos[|repos| - 1];
      ReportedAcross(gh, rng, author, repos[..|repos| - 1])
      + match gh.listPulls(repo, Closed)
        case Success(prs) => CountReported(rng, author, prs)
        case Failure(_) => 0
  }

  /** One line per reported pull request, each naming it, and no other line. */
  lemma {:induction false} RepPullsLines(rng: DateRange, author: string, authors: bool, prs: seq<PullRequest>)
    ensures |RepPulls(rng, author, authors, prs)| == CountReported(rng, author, prs)
    ensures forall i :: 0 <= i < |prs| && RepReports(rng, author, prs[i]) ==>
              RepLine(prs[i], authors) in RepPulls(rng, author, authors, prs)
    ensures forall line :: line in RepPulls(rng, author, authors, prs) ==>
              exists i :: 0 <= i < |prs| && RepReports(rng, author, prs[i]) && line == RepLine(prs[i], authors)
    decreases |prs|
  {
    if prs != [] {
      var init := prs[..|prs| - 1];
      var last := |prs| - 1;
      RepPullsLines(rng, author, authors, init);
      forall i | 0 <= i < |prs| && RepReports(rng, author, prs[i])
        ensures RepLine(prs[i], authors) in RepPulls(rng, author, authors, prs)
      {
        if i < last {
          assert prs[i] == init[i];
        }
      }
      forall line | line in RepPulls(rng, author, authors, prs)
        ensures exists i :: 0 <= i < |prs| && RepReports(rng, author, prs[i]) && line == RepLine(prs[i], authors)
      {
        if line in RepPulls(rng, author, authors, init) {
          var i :| 0 <= i < |init| && RepReports(rng, author, init[i]) && line == RepLine(init[i], authors);
          assert prs[i] == init[i];
        } else {
          assert RepReports(rng, author, prs[last]) && line == RepLine(prs[last], authors);
        }
      }
    }
  }

  lemma {:induction false} RepReposCount(gh: GitHub, rng: DateRange, author: string, authors: bool, repos: seq<Repo>)
    requires RepRepos(gh, rng, author, authors, repos).failure == None
    ensures |RepRepos(gh, rng, author, authors, repos).lines| == ReportedAcross(gh, rng, author, repos)
    decreases |repos|
  {
    if repos != [] {
      RepReposCount(gh, rng, author, authors, repos[..|repos| - 1]);
      var repo := repos[|repos| - 1];
      if gh.listPulls(repo, Closed).Success? {
        RepPullsLines(rng, author, authors, gh.listPulls(repo, Closed).value);
      }
    }
  }

  /** A completed `report` prints one line per reported pull request, or exactly the placeholder. */
  lemma RepReportShape(gh: GitHub, period: string, now: Instant, source: string, authorFlag: string,
                       authors: bool)
    requires RepReport(gh, period, now, source, authorFlag, authors).failure == None
    ensures ParseRange(period, now).Success? && Repos(gh, source).Success?
            && Author(authorFlag, gh.authenticatedLogin).Success?
    ensures var reported := ReportedAcross(gh, ParseRange(period, now).value,
                                           Author(authorFlag, gh.authenticatedLogin).value,
                                           Repos(gh, source).value);
            var lines := RepReport(gh, period, now, source, authorFlag, authors).lines;
            (reported == 0 ==> lines == [REP_NOTHING]) && (reported > 0 ==> |lines| == reported)
  {
    RepReposCount(gh, ParseRange(period, now).value, Author(authorFlag, gh.authenticatedLogin).value,
                  authors, Repos(gh, source).value);
  }

  /** An unmerged pull request is never reported, whenever it was closed. */
  lemma RepSkipsUnmerged(rng: DateRange, author: string, authors: bool, prs: seq<PullRequest>, pr: PullRequest)
    requires pr.mergedAt.None?
    ensures RepPulls(rng, author, authors, prs + [pr]) == RepPulls(rng, author, authors, prs)
  {
    assert (prs + [pr])[..|prs|] == prs;
  }

  /**
   * A pull request without a close time is judged by the zero time, which the daily
   * range of a reference outside year 1 and the weekly range of a reference at least seven
   * days after the zero time exclude.
   */
  lemma RepUnclosedNotReported(ref: Instant, author: string, pr: PullRequest)
    requires pr.closedAt.None?
    ensures ref.year != 1 ==> !RepReports(Daily(ref), author, pr)
    ensures ref.nanos - WEEK >= ZERO_TIME.nanos ==> !RepReports(Weekly(ref), author, pr)
  {
  }

  // ===========================================================================
  // contrib

  /** The reviews `contrib` credits: by an organisation member, approving or requesting changes. */
  predicate Qualifies(rev: Review) {
    rev.association == "MEMBER" && (rev.state == "CHANGES_REQUESTED" || rev.state == "APPROVED")
  }

  function QualifiedReviewers(revs: seq<Review>): set<string> {
    set i | 0 <= i < |revs| && Qualifies(revs[i]) :: revs[i].login
  }

  /** The `reviewers` set of one pull request. */
  method CollectReviewers(revs: seq<Review>) returns (reviewers: set<string>)
    ensures reviewers == QualifiedReviewers(revs)
  {
    reviewers := {};
    for i := 0 to |revs|
      invariant reviewers == QualifiedReviewers(revs[..i])
    {
      var rev := revs[i];
      assert forall k :: 0 <= k < i ==> revs[..i + 1][k] == revs[..i][k];
      if rev.association != "MEMBER" {
        continue;
      }
      var state := rev.state;
      if state != "CHANGES_REQUESTED" && state != "APPROVED" {
        continue;
      }
      reviewers := reviewers + {rev.login};
    }
    assert revs[..|revs|] == revs;
  }

  /** The reviewers the author filter lets through. */
  function Credited(author: string, reviewers: set<string>): set<string> {
    set r | r in reviewers && MatchesRaw(author, r)
  }

  /** One review credited to each of `names`. */
  function CreditReviews(t: map<string, Counters>, names: set<string>): (t': map<string, Counters>)
    ensures t'.Keys == t.Keys + names
  {
    map u | u in t.Keys + names :: if u in names then Incr(Lookup(t, u), ReviewKind) else t[u]
  }

  /** Each of `names` has exactly one review more; everybody else is as before. */
  lemma CreditReviewsLookup(t: map<string, Counters>, names: set<string>, u: string)
    ensures Lookup(CreditReviews(t, names), u) == if u in names then Incr(Lookup(t, u), ReviewKind) else Lookup(t, u)
  {
  }

  lemma CreditReviewsStep(t: map<string, Counters>, names: set<string>, x: string)
    requires x !in names
    ensures CreditReviews(t, names + {x}) == Credit(CreditReviews(t, names), x, ReviewKind)
  {
    var a := CreditReviews(t, names + {x});
    var b := Credit(CreditReviews(t, names), x, ReviewKind);
    assert a.Keys == b.Keys;
    forall u | u in a.Keys ensures a[u] == b[u] {
      CreditReviewsLookup(t, names + {x}, u);
      CreditReviewsLookup(t, names, u);
      CreditLookup(CreditReviews(t, names), x, ReviewKind, u);
      assert Lookup(a, u) == Lookup(b, u);
    }
  }

  /** Taking reviewer `r` off the pending set adds `r` to the credited ones if the filter lets it through. */
  lemma CreditedStep(author: string, reviewers: set<string>, pending: set<string>, r: string)
    requires r in pending && pending <= reviewers
    ensures r !in Credited(author, reviewers - pending)
    ensures Credited(author, reviewers - (pending - {r}))
            == Credited(author, reviewers - pending) + (if MatchesRaw(author, r) then {r} else {})
  {
  }

  /** One turn of the loop over `reviewers`: `r` leaves the pending set, credited if the filter lets it through. */
  lemma CreditReviewersTurn(t0: map<string, Counters>, author: string, reviewers: set<string>,
                            pending: set<string>, r: string, table: map<string, Counters>)
    requires r in pending && pending <= reviewers
    requires table == CreditReviews(t0, Credited(author, reviewers - pending))
    ensures (if MatchesRaw(author, r) then Credit(table, r, ReviewKind) else table)
            == CreditReviews(t0, Credited(author, reviewers - (pending - {r})))
  {
    CreditedStep(author, reviewers, pending, r);
    var done := Credited(author, reviewers - pending);
    if MatchesRaw(author, r) {
      CreditReviewsStep(t0, done, r);
    } else {
      assert done + {} == done;
    }
  }

  /** The loop over one pull request's `reviewers` set. */
  method CreditReviewers(stats: UsersStats, author: string, reviewers: set<string>)
    modifies stats
    ensures stats.table == CreditReviews(old(stats.table), Credited(author, reviewers))
  {
    ghost var t0 := stats.table;
    var pending := reviewers;
    assert Credited(author, reviewers - pending) == {};
    assert CreditReviews(t0, {}) == t0;
    while pending != {}
      invariant pending <= reviewers
      invariant stats.table == CreditReviews(t0, Credited(author, reviewers - pending))
      decreases pending
    {
      var reviewer :| reviewer in pending;
      CreditReviewersTurn(t0, author, reviewers, pending, reviewer, stats.table);
      if author == "" || (author != "" && author == reviewer) {
        stats.Review(reviewer);
      }
      pending := pending - {reviewer};
    }
    assert reviewers - pending == reviewers;
  }

  /** The pull requests `contrib` looks at: closed in the range, not the bot's. */
  predicate Contributes(rng: DateRange, pr: PullRequest) {
    Include(rng, pr.closedAt) && !IsBot(pr.login)
  }

  /** A merged pull request is credited to its author. */
  function CreditPull(t: map<string, Counters>, author: string, pr: PullRequest): map<string, Counters> {
    if pr.mergedAt.Some? && MatchesRaw(author, pr.login) then Credit(t, pr.login, PullKind) else t
  }

  /** The table so far, and the error that stopped the command, if any. */
  datatype Tally = Tally(table: map<string, Counters>, failure: Option<string>)

  /** `contrib` on one pull request, from table `t`. */
  function ContribPull(gh: GitHub, repo: Repo, rng: DateRange, author: string, t: map<string, Counters>,
                       pr: PullRequest): Tally
  {
    if !Contributes(rng, pr) then Tally(t, None)
    else
      match gh.listReviews(repo, pr.number)
      case Failure(e) => Tally(t, Some(e))
      case Success(revs) =>
        Tally(CreditPull(CreditReviews(t, Credited(author, QualifiedReviewers(revs))), author, pr), None)
  }

  /** `contrib` over one repository's closed pull requests, left to right, from table `t`. */
  function ContribPulls(gh: GitHub, repo: Repo, rng: DateRange, author: string, t: map<string, Counters>,
                        prs: seq<PullRequest>): Tally
    decreases |prs|
  {
    if prs == [] then Tally(t, None)
    else
      var o := ContribPulls(gh, repo, rng, author, t, prs[..|prs| - 1]);
      if o.failure.Some? then o else ContribPull(gh, repo, rng, author, o.table, prs[|prs| - 1])
  }

  lemma ContribPullsNext(gh: GitHub, repo: Repo, rng: DateRange, author: string, t: map<string, Counters>,
                         prs: seq<PullRequest>, j: nat, table: map<string, Counters>)
    requires j < |prs|
    requires ContribPulls(gh, repo, rng, author, t, prs[..j]) == Tally(table, None)
    ensures ContribPulls(gh, repo, rng, author, t, prs[..j + 1]) == ContribPull(gh, repo, rng, author, table, prs[j])
  {
    assert prs[..j + 1][..j] == prs[..j];
  }

  /** `contrib` on one repository, from table `t`. */
  function ContribRepoTally(gh: GitHub, rng: DateRange, author: string, t: map<string, Counters>, repo: Repo): Tally
  {
    match gh.listPulls(repo, Closed)
    case Failure(e) => Tally(t, Some(e))
    case Success(prs) => ContribPulls(gh, repo, rng, author, t, prs)
  }

  function ContribRepos(gh: GitHub, rng: DateRange, author: string, repos: seq<Repo>): Tally
    decreases |repos|
  {
    if repos == [] then Tally(map[], None)
    else
      var o := ContribRepos(gh, rng, author, repos[..|repos| - 1]);
      if o.failure.Some? then o else ContribRepoTally(gh, rng, author, o.table, repos[|repos| - 1])
  }

  lemma ContribReposNext(gh: GitHub, rng: DateRange, author: string, repos: seq<Repo>, i: nat,
                         table: map<string, Counters>)
    requires i < |repos|
    requires ContribRepos(gh, rng, author, repos[..i]) == Tally(table, None)
    ensures ContribRepos(gh, rng, author, repos[..i + 1]) == ContribRepoTally(gh, rng, author, table, repos[i])
  {
    assert repos[..i + 1][..i] == repos[..i];
  }

  /** The issues `contrib` credits: closed in the range, assigned to someone other than the reporter. */
  predicate CountsIssue(rng: DateRange, i: Issue) {
    Include(rng, i.closedAt) && i.assignee.Some? && i.assignee.value != i.login
  }

  /** `contrib` on one issue: a counting issue is credited to its reporter if the filter lets them through. */
  function ContribIssue(rng: DateRange, author: string, t: map<string, Counters>, i: Issue): map<string, Counters> {
    if CountsIssue(rng, i) && MatchesRaw(author, i.login) then Credit(t, i.login, IssueKind) else t
  }

  function ContribIssues(rng: DateRange, author: string, t: map<string, Counters>, issues: seq<Issue>): map<string, Counters>
    decreases |issues|
  {
    if issues == [] then t
    else ContribIssue(rng, author, ContribIssues(rng, author, t, issues[..|issues| - 1]), issues[|issues| - 1])
  }

  /** `cmdContribs`: the statistics table it prints, or the error it stops with. */
  function ContribReport(gh: GitHub, period: string, now: Instant, source: string, authorFlag: string)
    : Result<map<string, Counters>>
  {
    match ParseRange(period, now)
    case Failure(e) => Failure(e)
    case Success(rng) =>
      match Repos(gh, source)
      case Failure(e) => Failure(e)
      case Success(repos) =>
        match Author(authorFlag, gh.authenticatedLogin)
        case Failure(e) => Failure(e)
        case Success(author) =>
          var o := ContribRepos(gh, rng, author, repos);
          if o.failure.Some? then Failure(o.failure.value)
          else
            match gh.orgIssues(source)
            case Failure(e) => Failure(e)
            case Success(issues) => Success(ContribIssues(rng, author, o.table, issues))
  }

  lemma {:induction false} ContribPullsSticky(gh: GitHub, repo: Repo, rng: DateRange, author: string,
                                              t: map<string, Counters>, prs: seq<PullRequest>, k: nat)
    requires k <= |prs|
    requires ContribPulls(gh, repo, rng, author, t, prs[..k]).failure.Some?
    ensures ContribPulls(gh, repo, rng, author, t, prs) == ContribPulls(gh, repo, rng, author, t, prs[..k])
    decreases |prs|
  {
    if k < |prs| {
      assert prs[..|prs| - 1][..k] == prs[..k];
      ContribPullsSticky(gh, repo, rng, author, t, prs[..|prs| - 1], k);
    } else {
      assert prs[..k] == prs;
    }
  }

  lemma {:induction false} ContribReposSticky(gh: GitHub, rng: DateRange, author: string, repos: seq<Repo>, k: nat)
    requires k <= |repos|
    requires ContribRepos(gh, rng, author, repos[..k]).failure.Some?
    ensures ContribRepos(gh, rng, author, repos) == ContribRepos(gh, rng, author, repos[..k])
    decreases |repos|
  {
    if k < |repos| {
      assert repos[..|repos| - 1][..k] == repos[..k];
      ContribReposSticky(gh, rng, author, repos[..|repos| - 1], k);
    } else {
      assert repos[..k] == repos;
    }
  }

  /** The loop of `cmdContribs` over one repository's closed pull requests. */
  method ContribRepo(gh: GitHub, repo: Repo, rng: DateRange, author: string, stats: UsersStats,
                     prs: seq<PullRequest>) returns (failure: Option<string>)
    modifies stats
    ensures ContribPulls(gh, repo, rng, author, old(stats.table), prs) == Tally(stats.table, failure)
  {
    ghost var t0 := stats.table;
    for j := 0 to |prs|
      invariant ContribPulls(gh, repo, rng, author, t0, prs[..j]) == Tally(stats.table, None)
    {
      var pr := prs[j];
      ContribPullsNext(gh, repo, rng, author, t0, prs, j, stats.table);
      if !Include(rng, pr.closedAt) {
        continue;
      }
      if HasPrefix(pr.login, BOT_PREFIX) {
        continue;
      }
      var fetched := gh.listReviews(repo, pr.number);
      if fetched.Failure? {
        ContribPullsSticky(gh, repo, rng, author, t0, prs, j + 1);
        return Some(fetched.error);
      }
      var reviewers := CollectReviewers(fetched.value);
      CreditReviewers(stats, author, reviewers);
      if pr.mergedAt.Some? {
        var user := pr.login;
        if author == "" || (author != "" && author == user) {
          stats.Pull(user);
        }
      }
    }
    assert prs[..|prs|] == prs;
    failure := None;
  }

  /** The loop of `cmdContribs` over the organisation's closed issues. */
  method CreditIssues(stats: UsersStats, rng: DateRange, author: string, tickets: seq<Issue>)
    modifies stats
    ensures stats.table == ContribIssues(rng, author, old(stats.table), tickets)
  {
    ghost var t1 := stats.table;
    for k := 0 to |tickets|
      invariant stats.table == ContribIssues(rng, author, t1, tickets[..k])
    {
      var ticket := tickets[k];
      assert tickets[..k + 1][..k] == tickets[..k];
      if !Include(rng, ticket.closedAt) {
        continue;
      }
      if ticket.assignee.None? || ticket.assignee.value == ticket.login {
        continue;
      }
      var user := ticket.login;
      if author == "" || (author != "" && author == user) {
        stats.Issue(user);
      }
    }
    assert tickets[..|tickets|] == tickets;
  }

  /** `cmdContribs` (the `now` of `ParseRange` is a parameter). */
  method CmdContribs(gh: GitHub, period: string, now: Instant, source: string, authorFlag: string)
    returns (r: Result<map<string, Counters>>)
    ensures r == ContribReport(gh, period, now, source, authorFlag)
  {
    var parsed := ParseRange(period, now);
    if parsed.Failure? {
      return Failure(parsed.error);
    }
    var rng := parsed.value;
    var targets := Repos(gh, source);
    if targets.Failure? {
      return Failure(targets.error);
    }
    var repos := targets.value;
    var resolved := Author(authorFlag, gh.authenticatedLogin);
    if resolved.Failure? {
      return Failure(resolved.error);
    }
    var author := resolved.value;
    var stats := new UsersStats();
    for i := 0 to |repos|
      invariant ContribRepos(gh, rng, author, repos[..i]) == Tally(stats.table, None)
    {
      var repo := repos[i];
      ContribReposNext(gh, rng, author, repos, i, stats.table);
      var listed := gh.listPulls(repo, Closed);
      if listed.Failure? {
        ContribReposSticky(gh, rng, author, repos, i + 1);
        return Failure(listed.error);
      }
      var failure := ContribRepo(gh, repo, rng, author, stats, listed.value);
      if failure.Some? {
        ContribReposSticky(gh, rng, author, repos, i + 1);
        return Failure(failure.value);
      }
    }
    assert repos[..|repos|] == repos;
    var listed := gh.orgIssues(source);
    if listed.Failure? {
      return Failure(listed.error);
    }
    CreditIssues(stats, rng, author, listed.value);
    r := Success(stats.table);
  }
}
