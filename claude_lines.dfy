/**
 * The repository inventory of devsecops/claude_total_lines_of_code.py: the total
 * line count of a repository's files, walked with a worklist from the root
 * listing; the per-repository row that adds the weekly activity counts; the name
 * search; and the console summary with its five largest repositories.
 */
module ClaudeLines {
  import opened Wrappers
  import opened Text
  import opened Aggregates
  import opened RepoActivity

  // ---------------------------------------------------------------------------
  // len(text.splitlines())

  /** The characters str.splitlines breaks at ("\r\n" counts as one break). */
  predicate IsLineBoundary(c: char) {
    c == '\n' || c == '\r' || c == '\U{000B}' || c == '\U{000C}' || c == '\U{001C}' || c == '\U{001D}'
    || c == '\U{001E}' || c == '\U{0085}' || c == '\U{2028}' || c == '\U{2029}'
  }

  /** The first line break at or after i, or |s|. */
  function FirstBreak(s: string, i: nat): (k: nat)
    requires i <= |s|
    ensures i <= k <= |s| && (forall m :: i <= m < k ==> !IsLineBoundary(s[m]))
    ensures k < |s| ==> IsLineBoundary(s[k])
    decreases |s| - i
  {
    if i == |s| || IsLineBoundary(s[i]) then i else FirstBreak(s, i + 1)
  }

  /** Where the next line starts after the break at k. */
  function BreakEnd(s: string, k: nat): (e: nat)
    requires k < |s|
    ensures k < e <= |s|
  {
    if s[k] == '\r' && k + 1 < |s| && s[k + 1] == '\n' then k + 2 else k + 1
  }

  /** The number of lines splitlines returns: a final line without a break still counts. */
  function LineCount(s: string): nat
    decreases |s|
  {
    if s == [] then 0
    else
      var k := FirstBreak(s, 0);
      if k == |s| then 1 else 1 + LineCount(s[BreakEnd(s, k)..])
  }

  /** The text of lines each followed by "\n". */
  function Terminated(lines: seq<string>): string
    decreases |lines|
  {
    if lines == [] then [] else lines[0] + "\n" + Terminated(lines[1..])
  }

  ghost predicate NoBreaks(lines: seq<string>) {
    forall i, m :: 0 <= i < |lines| && 0 <= m < |lines[i]| ==> !IsLineBoundary(lines[i][m])
  }

  /** A break-free line ended by "\n" counts once before what follows it. */
  lemma OneTerminatedLine(l: string, tail: string)
    requires forall m :: 0 <= m < |l| ==> !IsLineBoundary(l[m])
    ensures LineCount(l + "\n" + tail) == 1 + LineCount(tail)
  {
    var s := l + "\n" + tail;
    assert forall m :: 0 <= m < |l| ==> s[m] == l[m];
    assert s[|l|] == '\n';
    assert FirstBreak(s, 0) == |l|;
    assert BreakEnd(s, |l|) == |l| + 1;
    assert s[|l| + 1..] == tail;
  }

  /** Each "\n"-terminated line counts once, whatever follows. */
  lemma {:induction false} LineCountAfterTerminated(lines: seq<string>, rest: string)
    requires NoBreaks(lines)
    ensures LineCount(Terminated(lines) + rest) == |lines| + LineCount(rest)
    decreases |lines|
  {
    if lines != [] {
      var l := lines[0];
      var tail := Terminated(lines[1..]) + rest;
      assert Terminated(lines) + rest == l + "\n" + tail;
      assert forall m :: 0 <= m < |l| ==> !IsLineBoundary(l[m]);
      OneTerminatedLine(l, tail);
      assert NoBreaks(lines[1..]) by {
        forall i, m | 0 <= i < |lines| - 1 && 0 <= m < |lines[1..][i]|
          ensures !IsLineBoundary(lines[1..][i][m])
        {
          assert lines[1..][i] == lines[i + 1];
        }
      }
      LineCountAfterTerminated(lines[1..], rest);
    } else {
      assert Terminated(lines) + rest == rest;
    }
  }

  /** A non-empty text without a break is one line. */
  lemma OneLine(s: string)
    requires s != [] && forall m :: 0 <= m < |s| ==> !IsLineBoundary(s[m])
    ensures LineCount(s) == 1
  {
    assert FirstBreak(s, 0) == |s|;
  }

  /** n terminated lines count n, and one more unterminated line counts one more. */
  lemma LineCountOfLines(lines: seq<string>, last: string)
    requires NoBreaks(lines)
    requires forall m :: 0 <= m < |last| ==> !IsLineBoundary(last[m])
    ensures LineCount(Terminated(lines)) == |lines|
    ensures LineCount(Terminated(lines) + last) == |lines| + (if last == [] then 0 else 1)
  {
    LineCountAfterTerminated(lines, []);
    assert Terminated(lines) + [] == Terminated(lines);
    LineCountAfterTerminated(lines, last);
    if last != [] {
      OneLine(last);
    }
  }

  /** There are never more lines than characters. */
  lemma {:induction false} LineCountAtMostLength(s: string)
    ensures LineCount(s) <= |s|
    decreases |s|
  {
    if s != [] {
      var k := FirstBreak(s, 0);
      if k < |s| {
        LineCountAtMostLength(s[BreakEnd(s, k)..]);
      }
    }
  }

  // ---------------------------------------------------------------------------
  // get_total_lines

  /** An entry of the repository's contents. */
  datatype Entry =
    | File(path: string, text: Option<string>)  // text: the decoded content, None when decoding raises
    | Dir(path: string, children: seq<Entry>)
    | BrokenDir(path: string)                   // a directory whose listing raises

  const BinarySuffixes: seq<string> := [".png", ".jpg", ".jpeg", ".gif", ".pdf", ".zip", ".tar", ".gz"]

  predicate IsBinary(path: string) {
    exists k :: 0 <= k < |BinarySuffixes| && EndsWith(path, BinarySuffixes[k])
  }

  /**
   * What one file adds: nothing for a binary suffix or a content that does not decode
   * (the bare except), otherwise the number of lines splitlines finds in the decoded text.
   */
  function FileLines(e: Entry): (n: int)
    ensures n >= 0
    ensures e.File? && (IsBinary(e.path) || e.text.None?) ==> n == 0
    ensures e.File? && !IsBinary(e.path) && e.text.Some? ==> n == LineCount(e.text.value)
  {
    match e
    case File(path, text) => if IsBinary(path) || text.None? then 0 else LineCount(text.value)
    case _ => 0
  }

  function Plus(a: Option<nat>, b: Option<nat>): Option<nat> {
    if a.Some? && b.Some? then Some(a.value + b.value) else None
  }

  /** The lines below an entry, or None when some listing below it raises. */
  function EntryLines(e: Entry): Option<nat> {
    match e
    case File(_, _) => Some(FileLines(e))
    case BrokenDir(_) => None
    case Dir(_, children) => ForestLines(children)
  }

  function ForestLines(es: seq<Entry>): Option<nat> {
    if es == [] then Some(0) else Plus(EntryLines(es[0]), ForestLines(es[1..]))
  }

  function EntrySize(e: Entry): (n: nat)
    ensures n >= 1
  {
    match e
    case File(_, _) => 1
    case BrokenDir(_) => 1
    case Dir(_, children) => 1 + ForestSize(children)
  }

  function ForestSize(es: seq<Entry>): nat {
    if es == [] then 0 else EntrySize(es[0]) + ForestSize(es[1..])
  }

  /** Every file reachable from the forest, in depth-first order. */
  function EntryFiles(e: Entry): seq<Entry> {
    match e
    case File(_, _) => [e]
    case BrokenDir(_) => []
    case Dir(_, children) => ForestFiles(children)
  }

  function ForestFiles(es: seq<Entry>): seq<Entry> {
    if es == [] then [] else EntryFiles(es[0]) + ForestFiles(es[1..])
  }

  /** Some directory reachable from the forest cannot be listed. */
  predicate EntryBroken(e: Entry) {
    match e
    case File(_, _) => false
    case BrokenDir(_) => true
    case Dir(_, children) => ForestBroken(children)
  }

  predicate ForestBroken(es: seq<Entry>) {
    es != [] && (EntryBroken(es[0]) || ForestBroken(es[1..]))
  }

  lemma {:induction false} ForestLinesAppend(a: seq<Entry>, b: seq<Entry>)
    ensures ForestLines(a + b) == Plus(ForestLines(a), ForestLines(b))
    ensures ForestSize(a + b) == ForestSize(a) + ForestSize(b)
    decreases |a|
  {
    if a == [] {
      assert a + b == b;
    } else {
      assert (a + b)[0] == a[0];
      assert (a + b)[1..] == a[1..] + b;
      ForestLinesAppend(a[1..], b);
    }
  }

  /**
   * The total is the sum of the line counts of every reachable file, or nothing at all when
   * some reachable directory cannot be listed.
   */
  lemma {:induction false} ForestLinesAreFileSum(es: seq<Entry>)
    ensures ForestLines(es) == if ForestBroken(es) then None else Some(SumOf(ForestFiles(es), FileLines))
    decreases ForestSize(es)
  {
    if es != [] {
      var e, rest := es[0], es[1..];
      assert ForestSize(es) == EntrySize(e) + ForestSize(rest);
      ForestLinesAreFileSum(rest);
      SumOfAppend(EntryFiles(e), ForestFiles(rest), FileLines);
      match e
      case File(_, _) =>
        assert EntryFiles(e) == [e] && [e][0] == e && [e][1..] == [];
        assert SumOf(EntryFiles(e), FileLines) == FileLines(e);
      case BrokenDir(_) =>
      case Dir(_, children) =>
        assert EntrySize(e) == 1 + ForestSize(children);
        ForestLinesAreFileSum(children);
    }
  }

  /** get_total_lines' result for a root listing (None when listing the root raises). */
  function RepoLines(root: Option<seq<Entry>>): nat {
    match root
    case None => 0
    case Some(es) => match ForestLines(es) case None => 0 case Some(n) => n
  }

  /**
   * The worklist walk: pop the first entry; a directory appends its listing to the end, a
   * file adds its lines; a listing that raises makes the result 0.
   */
  method GetTotalLines(root: Option<seq<Entry>>) returns (total: nat)
    ensures total == RepoLines(root)
  {
    if root.None? {
      return 0;
    }
    var contents := root.value;
    total := 0;
    while contents != []
      invariant Plus(Some(total), ForestLines(contents)) == ForestLines(root.value)
      decreases ForestSize(contents)
    {
      var entry := contents[0];
      var rest := contents[1..];
      assert ForestSize(contents) == EntrySize(entry) + ForestSize(rest);
      match entry {
        case Dir(_, children) =>
          assert EntrySize(entry) == 1 + ForestSize(children);
          ForestLinesAppend(rest, children);
          contents := rest + children;
        case BrokenDir(_) =>
          return 0;
        case File(_, _) =>
          total := total + FileLines(entry);
          contents := rest;
      }
    }
  }

  /** A file with one of the listed suffixes adds nothing, whatever its content. */
  lemma BinaryFilesAddNothing(path: string, text: Option<string>, k: nat)
    requires k < |BinarySuffixes| && EndsWith(path, BinarySuffixes[k])
    ensures EntryLines(File(path, text)) == Some(0)
  {
  }

  /**
   * A decodable file without a binary suffix whose text is n terminated lines and a final
   * line without a break adds n, plus one when that final line is not empty.
   */
  lemma DecodedFileAddsItsLines(path: string, lines: seq<string>, last: string)
    requires !IsBinary(path) && NoBreaks(lines)
    requires forall m :: 0 <= m < |last| ==> !IsLineBoundary(last[m])
    ensures EntryLines(File(path, Some(Terminated(lines) + last))) == Some(|lines| + (if last == [] then 0 else 1))
  {
    LineCountOfLines(lines, last);
  }

  // ---------------------------------------------------------------------------
  // process_single_repo

  /** What is known of a repository besides its activity feed; `root` is None when listing it raises. */
  datatype RepoInfo = RepoInfo(
    feed: RepoFeed, lastUpdated: string, language: Option<string>, archived: bool, sizeKb: int,
    root: Option<seq<Entry>>)

  datatype RepoRow = RepoRow(
    repositoryName: string, totalLinesOfCode: nat, commitCount: nat, pullRequests: nat, issuesSolved: nat,
    contributors: nat, lastUpdated: string, primaryLanguage: string, isArchived: bool, repoSizeKb: int)

  /** The row, or None when one of the activity fetches raises. */
  function RowOf(repo: RepoInfo, start: int, end: int): (r: Option<RepoRow>)
    ensures r.None? <==> repo.feed.commits.None? || repo.feed.pulls.None? || repo.feed.issues.None?
    ensures r.Some? ==> (r.value.repositoryName == repo.feed.name
      && r.value.totalLinesOfCode == RepoLines(repo.root)
      && r.value.commitCount == |Analysed(repo.feed.commits.value)| <= CommitCap
      && r.value.contributors <= r.value.commitCount
      && r.value.pullRequests <= InWindow(CreatedTimes(repo.feed.pulls.value), start, end)
      && r.value.issuesSolved <= InWindow(ClosedTimes(repo.feed.issues.value), start, end)
      && r.value.primaryLanguage == (if repo.language.None? || repo.language.value == [] then "None" else repo.language.value))
  {
    var feed := repo.feed;
    if feed.commits.None? || feed.pulls.None? || feed.issues.None? then None
    else
      var cs := Analysed(feed.commits.value);
      var prs, closed := CreatedTimes(feed.pulls.value), ClosedTimes(feed.issues.value);
      ContributorsAtMostCommits(cs);
      WindowAtMostInWindow(prs, start, end);
      WindowAtMostInWindow(closed, start, end);
      var language := if repo.language.Some? && repo.language.value != [] then repo.language.value else "None";
      Some(RepoRow(feed.name, RepoLines(repo.root), |cs|, WindowCount(prs, start, end), WindowCount(closed, start, end),
        |Contributors(cs)|, repo.lastUpdated, language, repo.archived, repo.sizeKb))
  }

  method ProcessSingleRepo(repo: RepoInfo, start: int, end: int) returns (r: Option<RepoRow>)
    ensures r == RowOf(repo, start, end)
  {
    var language := if repo.language.Some? && repo.language.value != [] then repo.language.value else "None";
    var lines := GetTotalLines(repo.root);
    var feed := repo.feed;
    if feed.commits.None? || feed.pulls.None? || feed.issues.None? {
      return None;
    }
    var commits := Analysed(feed.commits.value);
    var pulls := CountPullRequests(feed.pulls.value, start, end);
    var issues := CountIssues(feed.issues.value, start, end);
    var contributors := CountContributors(commits);
    r := Some(RepoRow(feed.name, lines, |commits|, pulls, issues, contributors, repo.lastUpdated, language,
      repo.archived, repo.sizeKb));
  }

  // ---------------------------------------------------------------------------
  // get_github_stats

  function InfoName(repo: RepoInfo): string {
    repo.feed.name
  }

  function Outcomes(repos: seq<RepoInfo>, start: int, end: int): (os: seq<Option<RepoRow>>)
    ensures |os| == |repos| && forall i :: 0 <= i < |repos| ==> os[i] == RowOf(repos[i], start, end)
  {
    seq(|repos|, i requires 0 <= i < |repos| => RowOf(repos[i], start, end))
  }

  /** One row per searched repository whose processing succeeded; rows arrive in completion order. */
  method GetGithubStats(org: Option<seq<RepoInfo>>, query: Option<string>, start: int, end: int)
    returns (results: seq<RepoRow>)
    ensures org.None? ==> results == []
    ensures org.Some? ==> |results| <= |Search(org.value, InfoName, query)|
    ensures org.Some? ==> (forall s ::
      multiset(results)[s] == multiset(Outcomes(Search(org.value, InfoName, query), start, end))[Some(s)])
  {
    if org.None? {
      return [];
    }
    var repos := Search(org.value, InfoName, query);
    ghost var outcomes := Outcomes(repos, start, end);
    if repos == [] {
      assert outcomes == [];
      return [];
    }
    results := [];
    for i := 0 to |repos|
      invariant results == Kept(outcomes[..i])
    {
      var r := ProcessSingleRepo(repos[i], start, end);
      assert outcomes[..i + 1] == outcomes[..i] + [r];
      KeptAppend(outcomes[..i], [r]);
      if r.Some? {
        results := results + [r.value];
      }
    }
    assert outcomes[..|repos|] == outcomes;
    forall s
      ensures multiset(results)[s] == multiset(outcomes)[Some(s)]
    {
      KeptCount(outcomes, s);
    }
  }

  // ---------------------------------------------------------------------------
  // print_summary

  datatype Totals = Totals(repositories: nat, linesOfCode: int, commits: int, pullRequests: int, issuesSolved: int, contributors: int)

  datatype Summary = Summary(totals: Totals, largest: seq<RepoRow>)

  function LinesOf(r: RepoRow): int { r.totalLinesOfCode }
  function CommitsOf(r: RepoRow): int { r.commitCount }
  function PullsOf(r: RepoRow): int { r.pullRequests }
  function IssuesOf(r: RepoRow): int { r.issuesSolved }
  function ContributorsOf(r: RepoRow): int { r.contributors }

  function TotalsOf(rows: seq<RepoRow>): Totals {
    Totals(|rows|, SumOf(rows, LinesOf), SumOf(rows, CommitsOf), SumOf(rows, PullsOf), SumOf(rows, IssuesOf),
      SumOf(rows, ContributorsOf))
  }

  /** How many repositories the summary lists. */
  const TopCount := 5

  /**
   * print_summary: nothing for no rows; otherwise the totals and at most five rows, the
   * largest by line count, largest first.
   */
  method PrintSummary(stats: seq<RepoRow>) returns (summary: Option<Summary>)
    ensures summary.None? <==> stats == []
    ensures summary.Some? ==> (summary.value.totals == TotalsOf(stats)
      && |summary.value.largest| == (if |stats| < TopCount then |stats| else TopCount)
      && DescendingBy(summary.value.largest, LinesOf)
      && multiset(summary.value.largest) <= multiset(stats)
      && forall x, y :: x in multiset(stats) - multiset(summary.value.largest) && y in summary.value.largest ==>
        LinesOf(x) <= LinesOf(y))
  {
    if stats == [] {
      return None;
    }
    var a := new RepoRow[|stats|](i requires 0 <= i < |stats| => stats[i]);
    assert a[..] == stats;
    SortDescending(a, LinesOf);
    var n := if a.Length < TopCount then a.Length else TopCount;
    var largest := a[..n];
    TopAreLargest(stats, a[..], LinesOf, n);
    summary := Some(Summary(TotalsOf(stats), largest));
  }
}
