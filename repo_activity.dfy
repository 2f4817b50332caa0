/**
 * The weekly activity counts both organisation-statistics scripts compute per
 * repository: the commit cap, net lines changed, the windowed pull-request and
 * closed-issue counts with their early stop, the distinct contributors, and the
 * case-insensitive name search. Timestamps are integers; the window is the closed
 * interval [start, end].
 */
module RepoActivity {
  import opened Wrappers
  import opened Text
  import opened Aggregates

  /** Only the first 20 commits of the window are analysed. */
  const CommitCap := 20

  datatype CommitStats = CommitStats(additions: nat, deletions: nat)

  /** A commit's author: none at all, or a user whose login reads as Some, or None when reading it raises. */
  datatype Author = NoAuthor | User(login: Option<string>)

  /** A commit; `stats` is None when fetching the commit's statistics raises. */
  datatype Commit = Commit(stats: Option<CommitStats>, author: Author)

  datatype PullRequest = PullRequest(createdAt: int)

  /** A closed-issue listing entry: pull requests appear in it too, and closed_at may be missing. */
  datatype Issue = Issue(isPullRequest: bool, closedAt: Option<int>)

  /** What the scripts fetch for one repository; None where the fetch raises. */
  datatype RepoFeed = RepoFeed(
    name: string, commits: Option<seq<Commit>>, pulls: Option<seq<PullRequest>>, issues: Option<seq<Issue>>)

  // ---------------------------------------------------------------------------
  // list(repo.get_commits(...))[:20]

  function Analysed(commits: seq<Commit>): (cs: seq<Commit>)
    ensures cs <= commits
    ensures |cs| == if |commits| < CommitCap then |commits| else CommitCap
  {
    if |commits| <= CommitCap then commits else commits[..CommitCap]
  }

  // ---------------------------------------------------------------------------
  // stats['lines_of_code'] += commit.stats.additions - commit.stats.deletions

  /** A commit's net change; a commit whose statistics cannot be read is skipped. */
  function Delta(c: Commit): int {
    match c.stats
    case None => 0
    case Some(st) => st.additions - st.deletions
  }

  function Added(c: Commit): int {
    match c.stats
    case None => 0
    case Some(st) => st.additions
  }

  function Deleted(c: Commit): int {
    match c.stats
    case None => 0
    case Some(st) => st.deletions
  }

  /** The net change is the lines added minus the lines deleted by the commits whose statistics load. */
  lemma {:induction false} NetChange(cs: seq<Commit>)
    ensures SumOf(cs, Delta) == SumOf(cs, Added) - SumOf(cs, Deleted)
    decreases |cs|
  {
    if cs != [] {
      NetChange(cs[1..]);
    }
  }

  method SumLinesChanged(commits: seq<Commit>) returns (lines: int)
    ensures lines == SumOf(commits, Delta)
  {
    lines := 0;
    for i := 0 to |commits|
      invariant lines == SumOf(commits[..i], Delta)
    {
      SumOfAppend(commits[..i], [commits[i]], Delta);
      assert commits[..i + 1] == commits[..i] + [commits[i]];
      match commits[i].stats {
        case None =>
        case Some(st) => lines := lines + st.additions - st.deletions;
      }
    }
    assert commits[..|commits|] == commits;
  }

  // ---------------------------------------------------------------------------
  // The windowed counts

  /**
   * The count the loops compute over a stream of timestamps: the entries in [start, end]
   * that come before the first entry earlier than start, where iteration stops.
   */
  function WindowCount(ts: seq<int>, start: int, end: int): nat
    decreases |ts|
  {
    if ts == [] || ts[0] < start then 0
    else (if ts[0] <= end then 1 else 0) + WindowCount(ts[1..], start, end)
  }

  /** The plain count of entries in [start, end], with no early stop. */
  function InWindow(ts: seq<int>, start: int, end: int): nat
    decreases |ts|
  {
    if ts == [] then 0
    else (if start <= ts[0] <= end then 1 else 0) + InWindow(ts[1..], start, end)
  }

  ghost predicate Descending(ts: seq<int>) {
    forall p, q :: 0 <= p < q < |ts| ==> ts[p] >= ts[q]
  }

  lemma {:induction false} NoneInWindow(ts: seq<int>, start: int, end: int)
    requires forall k :: 0 <= k < |ts| ==> ts[k] < start
    ensures InWindow(ts, start, end) == 0
    decreases |ts|
  {
    if ts != [] {
      NoneInWindow(ts[1..], start, end);
    }
  }

  /** Stopping early never finds more than the plain count. */
  lemma {:induction false} WindowAtMostInWindow(ts: seq<int>, start: int, end: int)
    ensures WindowCount(ts, start, end) <= InWindow(ts, start, end)
    decreases |ts|
  {
    if ts != [] {
      WindowAtMostInWindow(ts[1..], start, end);
    }
  }

  /** On a stream sorted newest first, stopping at the first entry before start loses nothing. */
  lemma {:induction false} WindowOfDescending(ts: seq<int>, start: int, end: int)
    requires Descending(ts)
    ensures WindowCount(ts, start, end) == InWindow(ts, start, end)
    decreases |ts|
  {
    if ts != [] {
      if ts[0] < start {
        NoneInWindow(ts, start, end);
      } else {
        WindowOfDescending(ts[1..], start, end);
      }
    }
  }

  /** The creation times the pull-request loop compares, in listing order. */
  function CreatedTimes(pulls: seq<PullRequest>): (ts: seq<int>)
    ensures |ts| == |pulls| && forall k :: 0 <= k < |pulls| ==> ts[k] == pulls[k].createdAt
  {
    seq(|pulls|, k requires 0 <= k < |pulls| => pulls[k].createdAt)
  }

  /** The closing times the issue loop compares: entries that are pull requests or lack closed_at are skipped. */
  function ClosedTimes(issues: seq<Issue>): (ts: seq<int>)
    ensures |ts| <= |issues|
    decreases |issues|
  {
    if issues == [] then []
    else if !issues[0].isPullRequest && issues[0].closedAt.Some? then [issues[0].closedAt.value] + ClosedTimes(issues[1..])
    else ClosedTimes(issues[1..])
  }

  /** Every time the issue loop compares belongs to an issue (not a pull request) that was closed then. */
  lemma {:induction false} ClosedTimesOfIssues(issues: seq<Issue>, t: int)
    ensures t in ClosedTimes(issues) <==> exists k :: 0 <= k < |issues| && !issues[k].isPullRequest && issues[k].closedAt == Some(t)
    decreases |issues|
  {
    if issues != [] {
      ClosedTimesOfIssues(issues[1..], t);
      if exists k :: 0 <= k < |issues| && !issues[k].isPullRequest && issues[k].closedAt == Some(t) {
        var k :| 0 <= k < |issues| && !issues[k].isPullRequest && issues[k].closedAt == Some(t);
        if k > 0 {
          assert issues[1..][k - 1] == issues[k];
        }
      }
      if exists k :: 0 <= k < |issues| - 1 && !issues[1..][k].isPullRequest && issues[1..][k].closedAt == Some(t) {
        var k :| 0 <= k < |issues| - 1 && !issues[1..][k].isPullRequest && issues[1..][k].closedAt == Some(t);
        assert issues[k + 1] == issues[1..][k];
      }
    }
  }

  /** The pull-request loop: stops at the first pull request created before start. */
  method CountPullRequests(pulls: seq<PullRequest>, start: int, end: int) returns (count: nat)
    ensures count == WindowCount(CreatedTimes(pulls), start, end)
  {
    ghost var ts := CreatedTimes(pulls);
    count := 0;
    var i := 0;
    while i < |pulls|
      invariant 0 <= i <= |pulls|
      invariant count + WindowCount(ts[i..], start, end) == WindowCount(ts, start, end)
    {
      assert ts[i..][0] == pulls[i].createdAt && ts[i..][1..] == ts[i + 1..];
      if pulls[i].createdAt < start {
        break;
      }
      if start <= pulls[i].createdAt <= end {
        count := count + 1;
      }
      i := i + 1;
    }
  }

  /** The closed-issue loop: skips pull requests and entries without closed_at, stops at the first closed before start. */
  method CountIssues(issues: seq<Issue>, start: int, end: int) returns (count: nat)
    ensures count == WindowCount(ClosedTimes(issues), start, end)
  {
    count := 0;
    var i := 0;
    while i < |issues|
      invariant 0 <= i <= |issues|
      invariant count + WindowCount(ClosedTimes(issues[i..]), start, end) == WindowCount(ClosedTimes(issues), start, end)
    {
      assert issues[i..][0] == issues[i] && issues[i..][1..] == issues[i + 1..];
      var issue := issues[i];
      if !issue.isPullRequest && issue.closedAt.Some? {
        if issue.closedAt.value < start {
          break;
        }
        if start <= issue.closedAt.value <= end {
          count := count + 1;
        }
      }
      i := i + 1;
    }
    assert i == |issues| ==> issues[i..] == [];
  }

  // ---------------------------------------------------------------------------
  // contributors.add(commit.author.login if commit.author else 'unknown')

  /** The name a commit adds: 'unknown' without an author, nothing when reading the login raises. */
  function ContributorName(c: Commit): Option<string> {
    match c.author
    case NoAuthor => Some("unknown")
    case User(login) => login
  }

  function Contributors(cs: seq<Commit>): set<string>
    decreases |cs|
  {
    if cs == [] then {}
    else Contributors(cs[..|cs| - 1]) + (match ContributorName(cs[|cs| - 1]) case None => {} case Some(n) => {n})
  }

  /** A name is a contributor exactly when some analysed commit adds it. */
  lemma {:induction false} ContributorsAre(cs: seq<Commit>, name: string)
    ensures name in Contributors(cs) <==> exists k :: 0 <= k < |cs| && ContributorName(cs[k]) == Some(name)
    decreases |cs|
  {
    if cs != [] {
      var init := cs[..|cs| - 1];
      ContributorsAre(init, name);
      if exists k :: 0 <= k < |cs| && ContributorName(cs[k]) == Some(name) {
        var k :| 0 <= k < |cs| && ContributorName(cs[k]) == Some(name);
        if k < |cs| - 1 {
          assert init[k] == cs[k];
        }
      }
    }
  }

  /** There are never more contributors than analysed commits. */
  lemma {:induction false} ContributorsAtMostCommits(cs: seq<Commit>)
    ensures |Contributors(cs)| <= |cs|
    decreases |cs|
  {
    if cs != [] {
      ContributorsAtMostCommits(cs[..|cs| - 1]);
    }
  }

  method CountContributors(commits: seq<Commit>) returns (count: nat)
    ensures count == |Contributors(commits)|
  {
    var contributors: set<string> := {};
    for i := 0 to |commits|
      invariant contributors == Contributors(commits[..i])
    {
      assert commits[..i + 1][..i] == commits[..i];
      match commits[i].author {
        case NoAuthor => contributors := contributors + {"unknown"};
        case User(login) =>
          match login {
            case None =>
            case Some(name) => contributors := contributors + {name};
          }
      }
    }
    assert commits[..|commits|] == commits;
    count := |contributors|;
  }

  // ---------------------------------------------------------------------------
  // [repo for repo in repos if search_query.lower() in repo.name.lower()]

  function NameMatches(query: string, name: string): bool {
    Contains(Lower(name), Lower(query))
  }

  /** The repositories the search keeps, in order; no query (or an empty one) keeps them all. */
  function Search<R>(repos: seq<R>, nameOf: R -> string, query: Option<string>): (r: seq<R>)
    ensures |r| <= |repos|
    ensures query.None? || query.value == [] ==> r == repos
    decreases |repos|
  {
    if query.None? || query.value == [] || repos == [] then repos
    else (if NameMatches(query.value, nameOf(repos[0])) then [repos[0]] else []) + Search(repos[1..], nameOf, query)
  }

  /** With a query, the search keeps every copy of a matching repository and drops every other. */
  lemma {:induction false} SearchKeeps<R>(repos: seq<R>, nameOf: R -> string, query: string, x: R)
    requires query != []
    ensures multiset(Search(repos, nameOf, Some(query)))[x] ==
      if NameMatches(query, nameOf(x)) then multiset(repos)[x] else 0
    decreases |repos|
  {
    if repos != [] {
      SearchKeeps(repos[1..], nameOf, query, x);
      assert repos == [repos[0]] + repos[1..];
    }
  }

  // ---------------------------------------------------------------------------
  // if result: results.append(result)

  /** The non-None results. */
  function Kept<S>(xs: seq<Option<S>>): (r: seq<S>)
    ensures |r| <= |xs|
    decreases |xs|
  {
    if xs == [] then []
    else (if xs[0].Some? then [xs[0].value] else []) + Kept(xs[1..])
  }

  /** Each result appears as often as the processing returned it. */
  lemma {:induction false} KeptCount<S>(xs: seq<Option<S>>, v: S)
    ensures multiset(Kept(xs))[v] == multiset(xs)[Some(v)]
    decreases |xs|
  {
    if xs != [] {
      KeptCount(xs[1..], v);
      assert xs == [xs[0]] + xs[1..];
    }
  }

  lemma {:induction false} KeptAppend<S>(a: seq<Option<S>>, b: seq<Option<S>>)
    ensures Kept(a + b) == Kept(a) + Kept(b)
    decreases |a|
  {
    if a == [] {
      assert a + b == b;
    } else {
      assert (a + b)[0] == a[0];
      assert (a + b)[1..] == a[1..] + b;
      KeptAppend(a[1..], b);
    }
  }

  /** Results collected in any completion order hold the same entries. */
  lemma {:induction false} KeptPermutation<S>(xs: seq<Option<S>>, ys: seq<Option<S>>)
    requires multiset(xs) == multiset(ys)
    ensures multiset(Kept(xs)) == multiset(Kept(ys))
    decreases |xs|
  {
    if xs == [] {
      assert |ys| == |multiset(ys)| == 0;
    } else {
      var x := xs[0];
      assert x in multiset(ys);
      var k :| 0 <= k < |ys| && ys[k] == x;
      var rest := ys[..k] + ys[k + 1..];
      assert ys == ys[..k] + [x] + ys[k + 1..];
      assert xs == [x] + xs[1..];
      assert multiset(ys) == multiset(ys[..k]) + multiset([x]) + multiset(ys[k + 1..]);
      assert multiset(rest) == multiset(ys[..k]) + multiset(ys[k + 1..]);
      assert multiset(xs[1..]) == multiset(xs) - multiset([x]);
      assert multiset(rest) == multiset(ys) - multiset([x]);
      KeptPermutation(xs[1..], rest);
      KeptAppend(ys[..k] + [x], ys[k + 1..]);
      KeptAppend(ys[..k], [x]);
      KeptAppend(ys[..k], ys[k + 1..]);
      KeptAppend([x], xs[1..]);
    }
  }
}
