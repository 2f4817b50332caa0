/**
 * The weekly organisation statistics of devsecops/claude.py: one row per
 * repository (net lines changed over the analysed commits, pull requests, solved
 * issues, contributors, commit count), the name search, and the report that sorts
 * the rows by lines changed and sums them.
 */
module ClaudeStats {
  import opened Wrappers
  import opened Aggregates
  import opened RepoActivity

  datatype RepoStats = RepoStats(
    repoName: string, linesOfCode: int, pullRequests: nat, issuesSolved: nat, contributors: nat, commitCount: nat)

  /** process_single_repo: the row, or None when one of the fetches raises. */
  function StatsOf(repo: RepoFeed, start: int, end: int): (r: Option<RepoStats>)
    ensures r.None? <==> repo.commits.None? || repo.pulls.None? || repo.issues.None?
    ensures r.Some? ==> (r.value.repoName == repo.name
      && r.value.commitCount == |Analysed(repo.commits.value)| <= CommitCap
      && r.value.contributors <= r.value.commitCount
      && r.value.linesOfCode == SumOf(Analysed(repo.commits.value), Added) - SumOf(Analysed(repo.commits.value), Deleted)
      && r.value.pullRequests <= InWindow(CreatedTimes(repo.pulls.value), start, end)
      && r.value.issuesSolved <= InWindow(ClosedTimes(repo.issues.value), start, end))
  {
    if repo.commits.None? || repo.pulls.None? || repo.issues.None? then None
    else
      var cs := Analysed(repo.commits.value);
      var prs, closed := CreatedTimes(repo.pulls.value), ClosedTimes(repo.issues.value);
      ContributorsAtMostCommits(cs);
      NetChange(cs);
      WindowAtMostInWindow(prs, start, end);
      WindowAtMostInWindow(closed, start, end);
      Some(RepoStats(repo.name, SumOf(cs, Delta), WindowCount(prs, start, end), WindowCount(closed, start, end),
        |Contributors(cs)|, |cs|))
  }

  method ProcessSingleRepo(repo: RepoFeed, start: int, end: int) returns (r: Option<RepoStats>)
    ensures r == StatsOf(repo, start, end)
  {
    if repo.commits.None? || repo.pulls.None? || repo.issues.None? {
      return None;
    }
    var commits := Analysed(repo.commits.value);
    var lines := SumLinesChanged(commits);
    var pulls := CountPullRequests(repo.pulls.value, start, end);
    var issues := CountIssues(repo.issues.value, start, end);
    var contributors := CountContributors(commits);
    r := Some(RepoStats(repo.name, lines, pulls, issues, contributors, |commits|));
  }

  function RepoName(repo: RepoFeed): string {
    repo.name
  }

  /** What processing returns for each repository, in list order. */
  function Outcomes(repos: seq<RepoFeed>, start: int, end: int): (os: seq<Option<RepoStats>>)
    ensures |os| == |repos| && forall i :: 0 <= i < |repos| ==> os[i] == StatsOf(repos[i], start, end)
  {
    seq(|repos|, i requires 0 <= i < |repos| => StatsOf(repos[i], start, end))
  }

  /**
   * get_github_stats for the organisation's repositories (None when listing them raises):
   * one row per searched repository whose processing succeeded. Rows arrive in completion
   * order, so only the multiset of rows is promised.
   */
  method GetGithubStats(org: Option<seq<RepoFeed>>, query: Option<string>, start: int, end: int)
    returns (results: seq<RepoStats>)
    ensures org.None? ==> results == []
    ensures org.Some? ==> |results| <= |Search(org.value, RepoName, query)|
    ensures org.Some? ==> (forall s ::
      multiset(results)[s] == multiset(Outcomes(Search(org.value, RepoName, query), start, end))[Some(s)])
  {
    if org.None? {
      return [];
    }
    var repos := Search(org.value, RepoName, query);
    ghost var outcomes := Outcomes(repos, start, end);
    if repos == [] {
      assert outcomes == [];
      return [];
    }
    results := [];
    for i := 0 to |repos|
      invariant results == Kept(outcomes[..i])
    {
      var r := ProcessSingleRepo(repos[i], start, end);
      assert outcomes[..i + 1] == outcomes[..i] + [r];
      KeptAppend(outcomes[..i], [r]);
      if r.Some? {
        results := results + [r.value];
      }
    }
    assert outcomes[..|repos|] == outcomes;
    forall s
      ensures multiset(results)[s] == multiset(outcomes)[Some(s)]
    {
      KeptCount(outcomes, s);
    }
  }

  // ---------------------------------------------------------------------------
  // print_stats

  /** The totals under the report; "unique contributors" is the sum of the per-repository counts. */
  datatype Totals = Totals(linesOfCode: int, commits: int, pullRequests: int, issuesSolved: int, contributors: int, repositories: nat)

  function LinesOf(s: RepoStats): int { s.linesOfCode }
  function CommitsOf(s: RepoStats): int { s.commitCount }
  function PullsOf(s: RepoStats): int { s.pullRequests }
  function IssuesOf(s: RepoStats): int { s.issuesSolved }
  function ContributorsOf(s: RepoStats): int { s.contributors }

  function TotalsOf(stats: seq<RepoStats>): Totals {
    Totals(SumOf(stats, LinesOf), SumOf(stats, CommitsOf), SumOf(stats, PullsOf), SumOf(stats, IssuesOf),
      SumOf(stats, ContributorsOf), |stats|)
  }

  /** The totals do not depend on the order of the rows. */
  lemma TotalsOfPermutation(a: seq<RepoStats>, b: seq<RepoStats>)
    requires multiset(a) == multiset(b)
    ensures TotalsOf(a) == TotalsOf(b)
  {
    SumOfPermutation(a, b, LinesOf);
    SumOfPermutation(a, b, CommitsOf);
    SumOfPermutation(a, b, PullsOf);
    SumOfPermutation(a, b, IssuesOf);
    SumOfPermutation(a, b, ContributorsOf);
    assert |a| == |multiset(a)| == |multiset(b)| == |b|;
  }

  /**
   * print_stats: nothing for an empty list; otherwise the rows are sorted in place, most
   * lines changed first, and the totals are those of the rows as given.
   */
  method PrintStats(stats: array<RepoStats>) returns (totals: Option<Totals>)
    modifies stats
    ensures stats.Length == 0 ==> totals.None?
    ensures stats.Length > 0 ==> totals == Some(TotalsOf(old(stats[..])))
    ensures DescendingBy(stats[..], LinesOf)
    ensures multiset(stats[..]) == multiset(old(stats[..]))
  {
    if stats.Length == 0 {
      return None;
    }
    SortDescending(stats, LinesOf);
    TotalsOfPermutation(stats[..], old(stats[..]));
    totals := Some(TotalsOf(stats[..]));
  }
}
