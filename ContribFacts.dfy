/**
 * What the table of `contrib` counts: for every user, the merged pull requests they
 * authored, the pull requests they reviewed (once per pull request, whatever the number
 * of their reviews) and the issues they reported, each subject to the author filter.
 * The counts are defined directly over the inputs and tied to the left folds that the
 * command is proved to compute.
 */
module ContribFacts {
  import opened Wrappers
  import opened Text
  import opened Records
  import opened Filters
  import opened Resolve
  import opened Stats
  import opened Commands

  /** `c` with the given amounts added. */
  function Added(c: Counters, pulls: nat, issues: nat, reviews: nat): Counters {
    Counters(c.pulls + pulls, c.issues + issues, c.reviews + reviews)
  }

  /** `u` has a qualifying review on `pr` (the review listing succeeded). */
  predicate ReviewedIn(gh: GitHub, repo: Repo, pr: PullRequest, u: string) {
    gh.listReviews(repo, pr.number).Success? && u in QualifiedReviewers(gh.listReviews(repo, pr.number).value)
  }

  /** The pull requests among `prs` that `u` authored and that count: in range, not the bot's, merged. */
  function PullsBy(rng: DateRange, u: string, prs: seq<PullRequest>): (n: nat)
    ensures n <= |prs|
    decreases |prs|
  {
    if prs == [] then 0
    else
      var pr := prs[|prs| - 1];
      PullsBy(rng, u, prs[..|prs| - 1]) + (if Contributes(rng, pr) && pr.mergedAt.Some? && pr.login == u then 1 else 0)
  }

  /** The pull requests among `prs` that count and that `u` reviewed. */
  function ReviewsBy(gh: GitHub, repo: Repo, rng: DateRange, u: string, prs: seq<PullRequest>): (n: nat)
    ensures n <= |prs|
    decreases |prs|
  {
    if prs == [] then 0
    else
      var pr := prs[|prs| - 1];
      ReviewsBy(gh, repo, rng, u, prs[..|prs| - 1]) + (if Contributes(rng, pr) && ReviewedIn(gh, repo, pr, u) then 1 else 0)
  }

  /** The issues among `issues` that `u` reported and that count. */
  function IssuesBy(rng: DateRange, u: string, issues: seq<Issue>): (n: nat)
    ensures n <= |issues|
    decreases |issues|
  {
    if issues == [] then 0
    else
      var i := issues[|issues| - 1];
      IssuesBy(rng, u, issues[..|issues| - 1]) + (if CountsIssue(rng, i) && i.login == u then 1 else 0)
  }

  /** `PullsBy` summed over the repositories whose closed pull requests could be listed. */
  function PullsAcross(gh: GitHub, rng: DateRange, u: string, repos: seq<Repo>): nat
    decreases |repos|
  {
    if repos == [] then 0
    else
      var repo := repos[|repos| - 1];
      PullsAcross(gh, rng, u, repos[..|repos| - 1])
      + (match gh.listPulls(repo, Closed)
         case Failure(_) => 0
         case Success(prs) => PullsBy(rng, u, prs))
  }

  /** `ReviewsBy` summed over the repositories whose closed pull requests could be listed. */
  function ReviewsAcross(gh: GitHub, rng: DateRange, u: string, repos: seq<Repo>): nat
    decreases |repos|
  {
    if repos == [] then 0
    else
      var repo := repos[|repos| - 1];
      ReviewsAcross(gh, rng, u, repos[..|repos| - 1])
      + (match gh.listPulls(repo, Closed)
         case Failure(_) => 0
         case Success(prs) => ReviewsBy(gh, repo, rng, u, prs))
  }

  /** The reviewers of one pull request each get one review, if the filter lets them through. */
  lemma ReviewersLookup(t: map<string, Counters>, author: string, revs: seq<Review>, u: string)
    ensures Lookup(CreditReviews(t, Credited(author, QualifiedReviewers(revs))), u)
            == if MatchesRaw(author, u) && u in QualifiedReviewers(revs) then Incr(Lookup(t, u), ReviewKind)
               else Lookup(t, u)
  {
    CreditReviewsLookup(t, Credited(author, QualifiedReviewers(revs)), u);
  }

  /** A merged pull request credits its author, if the filter lets them through, and nobody else. */
  lemma CreditPullLookup(t: map<string, Counters>, author: string, pr: PullRequest, u: string)
    ensures Lookup(CreditPull(t, author, pr), u)
            == if pr.mergedAt.Some? && MatchesRaw(author, u) && pr.login == u then Incr(Lookup(t, u), PullKind)
               else Lookup(t, u)
  {
    if pr.mergedAt.Some? && MatchesRaw(author, pr.login) {
      CreditLookup(t, pr.login, PullKind, u);
    }
  }

  /** A review, then a pull, each credited or not, add up to one of each at most. */
  lemma IncrTwice(c0: Counters, c1: Counters, c2: Counters, reviewed: bool, pulled: bool)
    requires c1 == if reviewed then Incr(c0, ReviewKind) else c0
    requires c2 == if pulled then Incr(c1, PullKind) else c1
    ensures c2 == Added(c0, if pulled then 1 else 0, 0, if reviewed then 1 else 0)
  {
  }

  /** Reviewers first, then the merged pull request's author: what one user gains. */
  lemma CreditReviewedPull(t: map<string, Counters>, author: string, revs: seq<Review>, pr: PullRequest, u: string)
    ensures Lookup(CreditPull(CreditReviews(t, Credited(author, QualifiedReviewers(revs))), author, pr), u)
            == if MatchesRaw(author, u) then
                 Added(Lookup(t, u), if pr.mergedAt.Some? && pr.login == u then 1 else 0, 0,
                       if u in QualifiedReviewers(revs) then 1 else 0)
               else Lookup(t, u)
  {
    var mid := CreditReviews(t, Credited(author, QualifiedReviewers(revs)));
    var after := CreditPull(mid, author, pr);
    var reviewed := MatchesRaw(author, u) && u in QualifiedReviewers(revs);
    var pulled := pr.mergedAt.Some? && MatchesRaw(author, u) && pr.login == u;
    ReviewersLookup(t, author, revs, u);
    CreditPullLookup(mid, author, pr, u);
    IncrTwice(Lookup(t, u), Lookup(mid, u), Lookup(after, u), reviewed, pulled);
  }

  /** A counted pull request whose reviews were listed: its reviewers, then its author, are credited. */
  lemma ContribPullListed(gh: GitHub, repo: Repo, rng: DateRange, author: string, t: map<string, Counters>,
                          pr: PullRequest, revs: seq<Review>)
    requires Contributes(rng, pr)
    requires gh.listReviews(repo, pr.number) == Success(revs)
    ensures ContribPull(gh, repo, rng, author, t, pr)
            == Tally(CreditPull(CreditReviews(t, Credited(author, QualifiedReviewers(revs))), author, pr), None)
  {
  }

  /**
   * One pull request: its author gets a pull if it was merged, each member who approved or
   * requested changes gets one review however many reviews they left, nobody gets an issue,
   * and only users the filter lets through are touched.
   */
  lemma ContribPullCredits(gh: GitHub, repo: Repo, rng: DateRange, author: string, t: map<string, Counters>,
                           pr: PullRequest, u: string)
    requires ContribPull(gh, repo, rng, author, t, pr).failure.None?
    ensures Lookup(ContribPull(gh, repo, rng, author, t, pr).table, u)
            == if MatchesRaw(author, u) then
                 Added(Lookup(t, u),
                       if Contributes(rng, pr) && pr.mergedAt.Some? && pr.login == u then 1 else 0,
                       0,
                       if Contributes(rng, pr) && ReviewedIn(gh, repo, pr, u) then 1 else 0)
               else Lookup(t, u)
  {
    if Contributes(rng, pr) {
      var revs := gh.listReviews(repo, pr.number).value;
      ContribPullListed(gh, repo, rng, author, t, pr, revs);
      CreditReviewedPull(t, author, revs, pr, u);
    }
  }

  /** One repository's closed pull requests, when no review listing failed. */
  lemma {:induction false} ContribPullsCounts(gh: GitHub, repo: Repo, rng: DateRange, author: string,
                                              t: map<string, Counters>, prs: seq<PullRequest>, u: string)
    requires ContribPulls(gh, repo, rng, author, t, prs).failure.None?
    ensures Lookup(ContribPulls(gh, repo, rng, author, t, prs).table, u)
            == if MatchesRaw(author, u) then
                 Added(Lookup(t, u), PullsBy(rng, u, prs), 0, ReviewsBy(gh, repo, rng, u, prs))
               else Lookup(t, u)
    decreases |prs|
  {
    if prs != [] {
      var init := prs[..|prs| - 1];
      var o := ContribPulls(gh, repo, rng, author, t, init);
      ContribPullsCounts(gh, repo, rng, author, t, init, u);
      ContribPullCredits(gh, repo, rng, author, o.table, prs[|prs| - 1], u);
    }
  }

  /** The table after all repositories, when no listing failed. */
  lemma {:induction false} ContribReposCounts(gh: GitHub, rng: DateRange, author: string, repos: seq<Repo>, u: string)
    requires ContribRepos(gh, rng, author, repos).failure.None?
    ensures Lookup(ContribRepos(gh, rng, author, repos).table, u)
            == if MatchesRaw(author, u) then
                 Counters(PullsAcross(gh, rng, u, repos), 0, ReviewsAcross(gh, rng, u, repos))
               else ZERO
    decreases |repos|
  {
    if repos != [] {
      var init := repos[..|repos| - 1];
      var repo := repos[|repos| - 1];
      var o := ContribRepos(gh, rng, author, init);
      ContribReposCounts(gh, rng, author, init, u);
      ContribPullsCounts(gh, repo, rng, author, o.table, gh.listPulls(repo, Closed).value, u);
    }
  }

  /** One issue: a counting issue adds one issue to its reporter, if the filter lets them through, and nothing else. */
  lemma ContribIssueCredits(rng: DateRange, author: string, t: map<string, Counters>, i: Issue, u: string)
    ensures Lookup(ContribIssue(rng, author, t, i), u)
            == if MatchesRaw(author, u) then Added(Lookup(t, u), 0, if CountsIssue(rng, i) && i.login == u then 1 else 0, 0)
               else Lookup(t, u)
  {
    if CountsIssue(rng, i) && MatchesRaw(author, i.login) {
      CreditLookup(t, i.login, IssueKind, u);
    }
  }

  /** The organisation's issues: each counting issue goes to its reporter. */
  lemma {:induction false} ContribIssuesCounts(rng: DateRange, author: string, t: map<string, Counters>,
                                               issues: seq<Issue>, u: string)
    ensures Lookup(ContribIssues(rng, author, t, issues), u)
            == if MatchesRaw(author, u) then Added(Lookup(t, u), 0, IssuesBy(rng, u, issues), 0) else Lookup(t, u)
    decreases |issues|
  {
    if issues != [] {
      var init := issues[..|issues| - 1];
      ContribIssuesCounts(rng, author, t, init, u);
      ContribIssueCredits(rng, author, ContribIssues(rng, author, t, init), issues[|issues| - 1], u);
    }
  }

  /** Crediting reviewers keeps every stored record non-zero. */
  lemma CreditReviewsKeepsNoZero(t: map<string, Counters>, names: set<string>)
    requires NoZeroRecord(t)
    ensures NoZeroRecord(CreditReviews(t, names))
  {
    forall u | u in CreditReviews(t, names)
      ensures CreditReviews(t, names)[u] != ZERO
    {
      CreditReviewsLookup(t, names, u);
    }
  }

  lemma ContribPullKeepsNoZero(gh: GitHub, repo: Repo, rng: DateRange, author: string, t: map<string, Counters>,
                               pr: PullRequest)
    requires NoZeroRecord(t)
    ensures NoZeroRecord(ContribPull(gh, repo, rng, author, t, pr).table)
  {
    if Contributes(rng, pr) && gh.listReviews(repo, pr.number).Success? {
      var revs := gh.listReviews(repo, pr.number).value;
      var mid := CreditReviews(t, Credited(author, QualifiedReviewers(revs)));
      ContribPullListed(gh, repo, rng, author, t, pr, revs);
      CreditReviewsKeepsNoZero(t, Credited(author, QualifiedReviewers(revs)));
      if pr.mergedAt.Some? && MatchesRaw(author, pr.login) {
        CreditKeepsNoZero(mid, pr.login, PullKind);
      }
    }
  }

  lemma {:induction false} ContribPullsKeepsNoZero(gh: GitHub, repo: Repo, rng: DateRange, author: string,
                                                   t: map<string, Counters>, prs: seq<PullRequest>)
    requires NoZeroRecord(t)
    ensures NoZeroRecord(ContribPulls(gh, repo, rng, author, t, prs).table)
    decreases |prs|
  {
    if prs != [] {
      var init := prs[..|prs| - 1];
      ContribPullsKeepsNoZero(gh, repo, rng, author, t, init);
      ContribPullKeepsNoZero(gh, repo, rng, author, ContribPulls(gh, repo, rng, author, t, init).table, prs[|prs| - 1]);
    }
  }

  /** Whatever happens across the repositories, no stored record is zero. */
  lemma {:induction false} ContribReposKeepsNoZero(gh: GitHub, rng: DateRange, author: string, repos: seq<Repo>)
    ensures NoZeroRecord(ContribRepos(gh, rng, author, repos).table)
    decreases |repos|
  {
    if repos != [] {
      var init := repos[..|repos| - 1];
      var repo := repos[|repos| - 1];
      ContribReposKeepsNoZero(gh, rng, author, init);
      var o := ContribRepos(gh, rng, author, init);
      if o.failure.None? && gh.listPulls(repo, Closed).Success? {
        ContribPullsKeepsNoZero(gh, repo, rng, author, o.table, gh.listPulls(repo, Closed).value);
      }
    }
  }

  lemma {:induction false} ContribIssuesKeepsNoZero(rng: DateRange, author: string, t: map<string, Counters>,
                                                    issues: seq<Issue>)
    requires NoZeroRecord(t)
    ensures NoZeroRecord(ContribIssues(rng, author, t, issues))
    decreases |issues|
  {
    if issues != [] {
      var init := issues[..|issues| - 1];
      var i := issues[|issues| - 1];
      ContribIssuesKeepsNoZero(rng, author, t, init);
      if CountsIssue(rng, i) && MatchesRaw(author, i.login) {
        CreditKeepsNoZero(ContribIssues(rng, author, t, init), i.login, IssueKind);
      }
    }
  }

  /** An issue is judged by when it was closed, never by when it was opened. */
  lemma IssueJudgedByCloseTime(rng: DateRange, author: string, t: map<string, Counters>, i: Issue)
    ensures i.closedAt.None? ==> ContribIssue(rng, author, t, i) == t
    ensures Include(rng, i.closedAt) && i.assignee.Some? && i.assignee.value != i.login
            ==> Lookup(ContribIssue(rng, "", map[], i), i.login) == Counters(0, 1, 0)
  {
    ContribIssueCredits(rng, "", map[], i, i.login);
  }

  /** Issues are not checked for the bot prefix: the bot's own issue is credited to it. */
  lemma BotIssueCounted(now: Instant)
    ensures IsBot("dependabot[bot]")
    ensures Lookup(ContribIssue(Weekly(now), "", map[], Issue("dependabot[bot]", Some("alice"), "u", None, Some(now))),
                   "dependabot[bot]")
            == Counters(0, 1, 0)
  {
    var bot := "dependabot[bot]";
    assert bot[..|BOT_PREFIX|] == BOT_PREFIX;
    var i := Issue(bot, Some("alice"), "u", None, Some(now));
    assert |"alice"| != |bot|;
    assert Include(Weekly(now), Some(now));
    assert CountsIssue(Weekly(now), i);
    ContribIssueCredits(Weekly(now), "", map[], i, bot);
  }

  /**
   * The statistics `contrib` prints for user `u`: the merged pull requests they authored,
   * the pull requests they reviewed and the issues they reported; zero for a user the
   * filter does not let through.
   */
  lemma ContribReportCounts(gh: GitHub, period: string, now: Instant, source: string, authorFlag: string,
                            rng: DateRange, repos: seq<Repo>, author: string, issues: seq<Issue>, u: string)
    requires ParseRange(period, now) == Success(rng)
    requires Repos(gh, source) == Success(repos)
    requires Author(authorFlag, gh.authenticatedLogin) == Success(author)
    requires gh.orgIssues(source) == Success(issues)
    requires ContribReport(gh, period, now, source, authorFlag).Success?
    ensures Lookup(ContribReport(gh, period, now, source, authorFlag).value, u)
            == if MatchesRaw(author, u) then
                 Counters(PullsAcross(gh, rng, u, repos), IssuesBy(rng, u, issues), ReviewsAcross(gh, rng, u, repos))
               else ZERO
  {
    var o := ContribRepos(gh, rng, author, repos);
    ContribReposCounts(gh, rng, author, repos, u);
    ContribIssuesCounts(rng, author, o.table, issues, u);
  }

  /**
   * The users `contrib` prints: a user is in the final table exactly when their counters are
   * not zero, that is when the filter lets them through and they have a contribution.
   */
  lemma ContribReportKeys(gh: GitHub, period: string, now: Instant, source: string, authorFlag: string,
                          rng: DateRange, repos: seq<Repo>, author: string, issues: seq<Issue>, u: string)
    requires ParseRange(period, now) == Success(rng)
    requires Repos(gh, source) == Success(repos)
    requires Author(authorFlag, gh.authenticatedLogin) == Success(author)
    requires gh.orgIssues(source) == Success(issues)
    requires ContribReport(gh, period, now, source, authorFlag).Success?
    ensures u in ContribReport(gh, period, now, source, authorFlag).value
            <==> Lookup(ContribReport(gh, period, now, source, authorFlag).value, u) != ZERO
    ensures u in ContribReport(gh, period, now, source, authorFlag).value
            <==> MatchesRaw(author, u)
                 && (PullsAcross(gh, rng, u, repos) > 0 || IssuesBy(rng, u, issues) > 0 || ReviewsAcross(gh, rng, u, repos) > 0)
  {
    var o := ContribRepos(gh, rng, author, repos);
    ContribReportCounts(gh, period, now, source, authorFlag, rng, repos, author, issues, u);
    ContribReposKeepsNoZero(gh, rng, author, repos);
    ContribIssuesKeepsNoZero(rng, author, o.table, issues);
  }

  /** A review is credited at most once per pull request. */
  lemma ReviewsAtMostOncePerPull(gh: GitHub, repo: Repo, rng: DateRange, author: string,
                                 t: map<string, Counters>, prs: seq<PullRequest>, u: string)
    requires ContribPulls(gh, repo, rng, author, t, prs).failure.None?
    ensures Lookup(ContribPulls(gh, repo, rng, author, t, prs).table, u).reviews <= Lookup(t, u).reviews + |prs|
  {
    ContribPullsCounts(gh, repo, rng, author, t, prs, u);
  }

  /**
   * The filter is lower-cased but compared with the login as it is, so with a filter a
   * login holding an upper-case letter is never credited.
   */
  lemma ContribIgnoresMixedCaseLogin(gh: GitHub, period: string, now: Instant, source: string, authorFlag: string,
                                     u: string)
    requires ContribReport(gh, period, now, source, authorFlag).Success?
    requires Author(authorFlag, gh.authenticatedLogin) != Success("")
    requires !IsLower(u)
    ensures Lookup(ContribReport(gh, period, now, source, authorFlag).value, u) == ZERO
  {
    var rng := ParseRange(period, now).value;
    var repos := Repos(gh, source).value;
    var author := Author(authorFlag, gh.authenticatedLogin).value;
    var issues := gh.orgIssues(source).value;
    assert author != u;
    ContribReportCounts(gh, period, now, source, authorFlag, rng, repos, author, issues, u);
  }

  lemma QualifiedSingle(rev: Review)
    requires Qualifies(rev)
    ensures QualifiedReviewers([rev]) == {rev.login}
  {
    assert [rev][0] == rev;
    assert rev.login in QualifiedReviewers([rev]);
  }

  /** A world of one repository with one closed pull request and one issue: `contrib` succeeds. */
  lemma SingletonWorldRuns(gh: GitHub, now: Instant, source: string, repo: Repo, pr: PullRequest, issue: Issue)
    requires '/' !in source
    requires gh.listByOrg(source) == Success([repo])
    requires gh.listPulls(repo, Closed) == Success([pr])
    requires gh.listReviews(repo, pr.number).Success?
    requires gh.orgIssues(source) == Success([issue])
    ensures ContribReport(gh, "weekly", now, source, "").Success?
  {
    var rng := Weekly(now);
    assert ParseRange("weekly", now) == Success(rng);
    ReposOrganisation(gh, source);
    assert Author("", gh.authenticatedLogin) == Success("");
    assert ContribPull(gh, repo, rng, "", map[], pr).failure.None?;
    assert [pr][..0] == [];
    assert ContribPulls(gh, repo, rng, "", map[], [pr]).failure.None?;
    assert [repo][..0] == [];
    assert ContribRepos(gh, rng, "", [repo]).failure.None?;
  }

  /** In that world, without a filter, each user's counters come from the one pull request and the one issue. */
  lemma SingletonWorldCounts(gh: GitHub, now: Instant, source: string, repo: Repo, pr: PullRequest, issue: Issue,
                             u: string)
    requires '/' !in source
    requires gh.listByOrg(source) == Success([repo])
    requires gh.listPulls(repo, Closed) == Success([pr])
    requires gh.listReviews(repo, pr.number).Success?
    requires gh.orgIssues(source) == Success([issue])
    ensures ContribReport(gh, "weekly", now, source, "").Success?
    ensures var rng := Weekly(now);
            Lookup(ContribReport(gh, "weekly", now, source, "").value, u)
            == Counters(if Contributes(rng, pr) && pr.mergedAt.Some? && pr.login == u then 1 else 0,
                        if CountsIssue(rng, issue) && issue.login == u then 1 else 0,
                        if Contributes(rng, pr) && ReviewedIn(gh, repo, pr, u) then 1 else 0)
  {
    SingletonWorldRuns(gh, now, source, repo, pr, issue);
    var rng := Weekly(now);
    assert [pr][..0] == [];
    assert [issue][..0] == [];
    assert ParseRange("weekly", now) == Success(rng);
    ReposOrganisation(gh, source);
    assert Author("", gh.authenticatedLogin) == Success("");
    assert [repo][..0] == [];
    ContribReportCounts(gh, "weekly", now, source, "", rng, [repo], "", [issue], u);
  }

  /**
   * The worked example: in the week up to `now`, member alice approves bob's merged pull
   * request, and bob reports an issue that is closed and assigned to carol. Bob ends with
   * one pull and one issue (score 1.5), alice with one review (score 0.5), carol with nothing.
   */
  lemma AggregationScenario(gh: GitHub, now: Instant, repo: Repo, pr: PullRequest, rev: Review, issue: Issue)
    requires pr == PullRequest(1, "Fix", "bob", "closed", true, false, None, "url", Some(now), Some(now), Some(now))
    requires rev == Review("alice", "APPROVED", "MEMBER", "url")
    requires issue == Issue("bob", Some("carol"), "url", Some(now), Some(now))
    requires gh.listByOrg("octocat") == Success([repo])
    requires gh.listPulls(repo, Closed) == Success([pr])
    requires gh.listReviews(repo, 1) == Success([rev])
    requires gh.orgIssues("octocat") == Success([issue])
    ensures var r := ContribReport(gh, "weekly", now, "octocat", "");
            r.Success?
            && Lookup(r.value, "bob") == Counters(1, 1, 0) && Score2(Lookup(r.value, "bob")) == 3
            && Lookup(r.value, "alice") == Counters(0, 0, 1) && Score2(Lookup(r.value, "alice")) == 1
            && Lookup(r.value, "carol") == ZERO
  {
    var rng := Weekly(now);
    QualifiedSingle(rev);
    assert !IsBot("bob");
    assert Contributes(rng, pr) && CountsIssue(rng, issue);
    assert ReviewedIn(gh, repo, pr, "alice");
    assert !ReviewedIn(gh, repo, pr, "bob") && !ReviewedIn(gh, repo, pr, "carol");
    SingletonWorldCounts(gh, now, "octocat", repo, pr, issue, "bob");
    SingletonWorldCounts(gh, now, "octocat", repo, pr, issue, "alice");
    SingletonWorldCounts(gh, now, "octocat", repo, pr, issue, "carol");
  }
}
