/**
 * The organisation metrics script: page-count arithmetic on GitHub's Link header,
 * issue and pull-request totals with their zero fallbacks, the cloc command line,
 * the per-repository line counts, and the organisation totals.
 */
module GithubMetrics {
  import opened Wrappers
  import opened Text
  import opened Json
  import opened Aggregates

  // ---------------------------------------------------------------------------
  // re.search(r'page=(\d+)>; rel="last"', link_header)

  const PagePrefix := "page="
  const LastSuffix := ">; rel=\"last\""

  /** The first index at or after k that does not hold a digit. */
  function DigitRunEnd(s: string, k: nat): (j: nat)
    requires k <= |s|
    ensures k <= j <= |s| && (forall m :: k <= m < j ==> IsDigit(s[m]))
    ensures j < |s| ==> !IsDigit(s[j])
    decreases |s| - k
  {
    if k < |s| && IsDigit(s[k]) then DigitRunEnd(s, k + 1) else k
  }

  /**
   * The pattern matches at i: "page=", a digit run and `>; rel="last"`. The run is maximal,
   * since the character after it must be '>', so backtracking never shortens it.
   */
  predicate MatchesAt(s: string, i: nat) {
    i + |PagePrefix| <= |s| && s[i..i + |PagePrefix|] == PagePrefix
    && var j := DigitRunEnd(s, i + |PagePrefix|);
    j > i + |PagePrefix| && j + |LastSuffix| <= |s| && s[j..j + |LastSuffix|] == LastSuffix
  }

  /** The leftmost position at or after i where the pattern matches. */
  function SearchFrom(s: string, i: nat): (r: Option<nat>)
    requires i <= |s|
    ensures r.Some? ==> (i <= r.value <= |s| && MatchesAt(s, r.value)
      && forall k :: i <= k < r.value ==> !MatchesAt(s, k))
    ensures r.None? ==> forall k :: i <= k <= |s| ==> !MatchesAt(s, k)
    decreases |s| - i
  {
    if MatchesAt(s, i) then Some(i)
    else if i == |s| then None
    else SearchFrom(s, i + 1)
  }

  /** The digits of the match at i, as int() reads them. */
  function PageAt(s: string, i: nat): nat
    requires MatchesAt(s, i)
  {
    var k := i + |PagePrefix|;
    ParseNat(s[k..DigitRunEnd(s, k)])
  }

  /** get_count_from_link_header: None for a missing or empty header or when nothing matches. */
  function LinkLastPage(header: Option<string>): (r: Option<nat>)
    ensures r.Some? <==> header.Some? && exists k :: 0 <= k <= |header.value| && MatchesAt(header.value, k)
    ensures r.Some? ==> exists k :: (0 <= k <= |header.value| && MatchesAt(header.value, k)
      && (forall m :: 0 <= m < k ==> !MatchesAt(header.value, m)) && r.value == PageAt(header.value, k))
  {
    if header.None? || header.value == "" then None
    else match SearchFrom(header.value, 0)
      case None => None
      case Some(i) => Some(PageAt(header.value, i))
  }

  /** A numeral followed by `>; rel="last"` right after "page=" at i is a match, and its value is read. */
  lemma MatchOfLastLink(s: string, i: nat, digits: string)
    requires digits != [] && AllDigits(digits)
    requires i <= |s| && StartsWith(s[i..], PagePrefix + digits + LastSuffix)
    ensures MatchesAt(s, i) && PageAt(s, i) == ParseNat(digits)
  {
    var t := PagePrefix + digits + LastSuffix;
    var k := i + |PagePrefix|;
    var e := k + |digits|;
    assert s[i..i + |t|] == t;
    assert s[i..k] == t[..|PagePrefix|] == PagePrefix;
    assert s[k..e] == t[|PagePrefix|..|PagePrefix| + |digits|] == digits;
    assert s[e..e + |LastSuffix|] == t[|PagePrefix| + |digits|..] == LastSuffix;
    assert s[e] == LastSuffix[0];
    var j := DigitRunEnd(s, k);
    assert forall m :: k <= m < e ==> s[m] == digits[m - k];
    assert j == e;
  }

  /** A match with none to its left is the one search finds. */
  lemma SearchFindsFirst(s: string, i: nat)
    requires i <= |s| && MatchesAt(s, i) && forall k :: 0 <= k < i ==> !MatchesAt(s, k)
    ensures SearchFrom(s, 0) == Some(i)
  {
  }

  /** A header whose first match, at i, is `page=<n>>; rel="last"` yields n. */
  lemma LinkLastPageOf(h: string, i: nat, n: nat)
    requires i <= |h| && StartsWith(h[i..], PagePrefix + NatToString(n) + LastSuffix)
    requires forall k :: 0 <= k < i ==> !MatchesAt(h, k)
    ensures LinkLastPage(Some(h)) == Some(n)
  {
    MatchOfLastLink(h, i, NatToString(n));
    SearchFindsFirst(h, i);
    ParseNatToString(n);
  }

  // ---------------------------------------------------------------------------
  // get_total_count_from_response

  /** What the scripts read off a response: its Link header, URL and decoded body (None if not JSON). */
  datatype Response = Response(link: Option<string>, url: string, body: Option<Json>)

  /** `len(response.json())`: defined for lists, objects and strings; anything else raises. */
  function BodyLen(r: Response): Result<nat, string> {
    match r.body
    case None => Failure("JSONDecodeError")
    case Some(JArr(items)) => Success(|items|)
    case Some(JObj(fields)) => Success(|fields|)
    case Some(JStr(s)) => Success(|s|)
    case Some(_) => Failure("TypeError")
  }

  /**
   * The item count of a list endpoint paged 100 at a time, from the last page L the Link
   * header names (None or 0 when it names none), whether this response is that page, and
   * this page's length: (L-1)*100 plus the length on the last page, L*100 on another page,
   * and the page's own length without a usable last page.
   */
  function PagedCount(last: Option<nat>, onLastPage: bool, len: Result<nat, string>): (n: Result<nat, string>)
    ensures last.None? || last.value == 0 ==> n == len
    ensures last.Some? && last.value > 0 && !onLastPage ==> n == Success(last.value * 100)
    ensures last.Some? && last.value > 0 && onLastPage ==>
      n == if len.Success? then Success((last.value - 1) * 100 + len.value) else Failure(len.error)
  {
    if last.None? || last.value == 0 then len
    else if !onLastPage then Success(last.value * 100)
    else if len.Success? then Success((last.value - 1) * 100 + len.value)
    else Failure(len.error)
  }

  /** get_total_count_from_response: the response is the last page when its URL ends in `page=L`. */
  function TotalCount(r: Response): (n: Result<nat, string>)
    ensures var last := LinkLastPage(r.link);
      last.None? || last.value == 0 ==> n == BodyLen(r)
    ensures var last := LinkLastPage(r.link);
      last.Some? && last.value > 0 && !EndsWith(r.url, PagePrefix + NatToString(last.value)) ==>
      n == Success(last.value * 100)
    ensures var last, len := LinkLastPage(r.link), BodyLen(r);
      last.Some? && last.value > 0 && EndsWith(r.url, PagePrefix + NatToString(last.value)) ==>
      n == if len.Success? then Success((last.value - 1) * 100 + len.value) else Failure(len.error)
  {
    var last := LinkLastPage(r.link);
    var onLastPage := last.Some? && last.value > 0 && EndsWith(r.url, PagePrefix + NatToString(last.value));
    PagedCount(last, onLastPage, BodyLen(r))
  }

  /**
   * Reading the last page itself, the count is (L-1)*100 plus the page's length and so at
   * least (L-1)*100; it is at most L*100 when the page holds no more than 100 items.
   */
  lemma CountWithinLastPage(r: Response)
    requires LinkLastPage(r.link).Some? && LinkLastPage(r.link).value > 0
    requires EndsWith(r.url, PagePrefix + NatToString(LinkLastPage(r.link).value))
    ensures TotalCount(r).Success? <==> BodyLen(r).Success?
    ensures var last := LinkLastPage(r.link).value;
      BodyLen(r).Success? ==>
        TotalCount(r).value == (last - 1) * 100 + BodyLen(r).value && (last - 1) * 100 <= TotalCount(r).value
        && (BodyLen(r).value <= 100 ==> TotalCount(r).value <= last * 100)
  {
  }

  // ---------------------------------------------------------------------------
  // get_fast_issue_counts, get_fast_pr_counts

  datatype IssueCounts = IssueCounts(total: nat, open: nat, closed: nat)

  /** Open and closed counts from their two responses; any exception gives all zeros. */
  function FastIssueCounts(openResponse: Response, closedResponse: Response): (c: IssueCounts)
    ensures c.total == c.open + c.closed
    ensures TotalCount(openResponse).Failure? || TotalCount(closedResponse).Failure? ==> c == IssueCounts(0, 0, 0)
    ensures TotalCount(openResponse).Success? && TotalCount(closedResponse).Success? ==>
      c.open == TotalCount(openResponse).value && c.closed == TotalCount(closedResponse).value
  {
    match (TotalCount(openResponse), TotalCount(closedResponse))
    case (Success(o), Success(cl)) => IssueCounts(o + cl, o, cl)
    case _ => IssueCounts(0, 0, 0)
  }

  function FastPrCount(response: Response): (n: nat)
    ensures TotalCount(response).Failure? ==> n == 0
    ensures TotalCount(response).Success? ==> n == TotalCount(response).value
  {
    match TotalCount(response)
    case Success(n) => n
    case Failure(_) => 0
  }

  // ---------------------------------------------------------------------------
  // get_exclude_patterns and the cloc command line

  // The exclusion lists of get_exclude_patterns, group by group.

  /** The groups' entries one after the other. */
  function Flatten(gs: seq<seq<string>>): seq<string>
    decreases |gs|
  {
    if gs == [] then [] else gs[0] + Flatten(gs[1..])
  }

  const BuildDirs: seq<string> := ["node_modules", "vendor", "dist", "build", "packages", "bower_components"]  // Build and Dependencies
  const JavaDirs: seq<string> := ["target", ".gradle", "out", "classes", ".idea", ".settings", "bin"]  // Java related
  const PythonDirs: seq<string> := ["__pycache__", ".pytest_cache", ".coverage", ".tox", ".mypy_cache", "htmlcov", ".ipynb_checkpoints", "venv", "env", ".venv"]  // Python related
  const RustDirs: seq<string> := [".cargo", "debug", "release"]  // Rust related
  const VcsDirs: seq<string> := [".git", ".svn", ".hg"]  // version control
  const FrameworkDirs: seq<string> := [".next", ".nuxt", "migrations"]  // framework specific
  const IdeDirs: seq<string> := [".vscode", ".idea", ".eclipse"]  // IDEs and editors
  const DocDirs: seq<string> := ["docs", "doc", "documentation"]  // documentation
  const TestDirs: seq<string> := ["tests", "test", "testing", "__tests__", "__test__"]  // tests
  const CacheDirs: seq<string> := ["tmp", "temp", "cache", ".cache"]  // temporary files and caches
  const LogDirs: seq<string> := ["logs", "log"]  // logs

  const DirGroups: seq<seq<string>> := [
    BuildDirs, JavaDirs, PythonDirs, RustDirs, VcsDirs, FrameworkDirs,
    IdeDirs, DocDirs, TestDirs, CacheDirs, LogDirs]

  const MinifiedFiles: seq<string> := ["'*.min.js'", "'*.min.css'", "'*.bundle.js'", "'*.bundle.css'", "'*.chunk.js'", "'*.chunk.css'", "'*.vendor.js'", "'*.vendor.css'"]  // minified and generated JavaScript/CSS
  const SourceMapFiles: seq<string> := ["'*.map'"]  // source maps
  const LockFiles: seq<string> := ["'package-lock.json'", "'yarn.lock'", "'composer.lock'", "'Cargo.lock'"]  // lock files
  const CompiledFiles: seq<string> := ["'*.class'", "'*.jar'", "'*.war'", "'*.ear'", "'*.pyc'", "'*.pyo'", "'*.pyd'", "'*.rlib'", "'*.rmeta'", "'*.o'", "'*.d'"]  // compiled files
  const ConfigFiles: seq<string> := ["'*.config.js'", "'webpack.config.js'", "'babel.config.js'"]  // configuration files
  const LogFiles: seq<string> := ["'*.log'"]  // log files
  const DocFiles: seq<string> := ["'*.md'", "'*.txt'", "'*.pdf'"]  // documentation
  const IdeFiles: seq<string> := ["'.classpath'", "'.project'", "'*.iml'"]  // IDE files
  const DatabaseFiles: seq<string> := ["'*.sqlite'", "'*.db'", "'*.sql'"]  // database files
  const DataFiles: seq<string> := ["'*.json'", "'*.xml'", "'*.yaml'", "'*.yml'"]  // common data files

  const FileGroups: seq<seq<string>> := [
    MinifiedFiles, SourceMapFiles, LockFiles, CompiledFiles, ConfigFiles,
    LogFiles, DocFiles, IdeFiles, DatabaseFiles, DataFiles]

  /** get_exclude_patterns: the excluded directories and the excluded file patterns, in order. */
  function ExcludePatterns(): (seq<string>, seq<string>) {
    (Flatten(DirGroups), Flatten(FileGroups))
  }

  const ExcludeDirFlag := "--exclude-dir="
  const NotMatchFlag := "--not-match-f=("

  /** The cloc command line for the two exclusion lists get_exclude_patterns returns. */
  function ClocArgs(dirs: seq<string>, files: seq<string>): seq<string> {
    ["cloc", ".", "--json", ExcludeDirFlag + Join(dirs, ','), NotMatchFlag + Join(files, '|') + ")"]
  }

  /**
   * cloc receives every excluded directory and every file pattern unchanged: as long as no
   * directory name holds ',' and no pattern holds '|', splitting the two arguments at their
   * separators gives the lists back.
   */
  lemma ClocArgsListExclusions(dirs: seq<string>, files: seq<string>)
    requires |dirs| >= 1 && forall i :: 0 <= i < |dirs| ==> ',' !in dirs[i]
    requires |files| >= 1 && forall i :: 0 <= i < |files| ==> '|' !in files[i]
    ensures var args := ClocArgs(dirs, files);
      |args| == 5 && StartsWith(args[3], ExcludeDirFlag) && StartsWith(args[4], NotMatchFlag) && EndsWith(args[4], ")")
      && Split(args[3][|ExcludeDirFlag|..], ',') == dirs
      && Split(args[4][|NotMatchFlag|..|args[4]| - 1], '|') == files
  {
    var a3, a4 := ExcludeDirFlag + Join(dirs, ','), NotMatchFlag + Join(files, '|') + ")";
    assert a3[|ExcludeDirFlag|..] == Join(dirs, ',');
    assert a4[|NotMatchFlag|..|a4| - 1] == Join(files, '|');
    assert a3[..|ExcludeDirFlag|] == ExcludeDirFlag;
    assert a4[..|NotMatchFlag|] == NotMatchFlag;
    assert a4[|a4| - 1..] == ")";
    SplitJoin(dirs, ',');
    SplitJoin(files, '|');
  }

  /** No string in xs holds c. */
  ghost predicate FreeOf(xs: seq<string>, c: char) {
    forall i :: 0 <= i < |xs| ==> c !in xs[i]
  }

  lemma {:induction false} FreeOfFlatten(gs: seq<seq<string>>, c: char)
    requires forall i :: 0 <= i < |gs| ==> FreeOf(gs[i], c)
    ensures FreeOf(Flatten(gs), c)
    decreases |gs|
  {
    if gs != [] {
      var head, rest := gs[0], Flatten(gs[1..]);
      assert forall i :: 0 <= i < |gs[1..]| ==> gs[1..][i] == gs[i + 1];
      FreeOfFlatten(gs[1..], c);
      forall i | 0 <= i < |head + rest|
        ensures c !in (head + rest)[i]
      {
        if i >= |head| {
          assert (head + rest)[i] == rest[i - |head|];
        }
      }
    }
  }

  /** Every directory group is free of ','. */
  lemma DirGroupsFreeOfComma()
    ensures forall i :: 0 <= i < |DirGroups| ==> FreeOf(DirGroups[i], ',')
  {
    BuildDirsFree();
    JavaDirsFree();
    PythonDirsFree();
    RustDirsFree();
    VcsDirsFree();
    FrameworkDirsFree();
    IdeDirsFree();
    DocDirsFree();
    TestDirsFree();
    CacheDirsFree();
    LogDirsFree();
  }

  /** Every file-pattern group is free of '|'. */
  lemma FileGroupsFreeOfBar()
    ensures forall i :: 0 <= i < |FileGroups| ==> FreeOf(FileGroups[i], '|')
  {
    MinifiedFilesFree();
    SourceMapFilesFree();
    LockFilesFree();
    CompiledFilesFree();
    ConfigFilesFree();
    LogFilesFree();
    DocFilesFree();
    IdeFilesFree();
    DatabaseFilesFree();
    DataFilesFree();
  }

  lemma BuildDirsFree() ensures FreeOf(BuildDirs, ',') {}
  lemma JavaDirsFree() ensures FreeOf(JavaDirs, ',') {}
  lemma PythonDirsFree() ensures FreeOf(PythonDirs, ',') {}
  lemma RustDirsFree() ensures FreeOf(RustDirs, ',') {}
  lemma VcsDirsFree() ensures FreeOf(VcsDirs, ',') {}
  lemma FrameworkDirsFree() ensures FreeOf(FrameworkDirs, ',') {}
  lemma IdeDirsFree() ensures FreeOf(IdeDirs, ',') {}
  lemma DocDirsFree() ensures FreeOf(DocDirs, ',') {}
  lemma TestDirsFree() ensures FreeOf(TestDirs, ',') {}
  lemma CacheDirsFree() ensures FreeOf(CacheDirs, ',') {}
  lemma LogDirsFree() ensures FreeOf(LogDirs, ',') {}

  lemma MinifiedFilesFree() ensures FreeOf(MinifiedFiles, '|') {}
  lemma SourceMapFilesFree() ensures FreeOf(SourceMapFiles, '|') {}
  lemma LockFilesFree() ensures FreeOf(LockFiles, '|') {}
  lemma CompiledFilesFree() ensures FreeOf(CompiledFiles, '|') {}
  lemma ConfigFilesFree() ensures FreeOf(ConfigFiles, '|') {}
  lemma LogFilesFree() ensures FreeOf(LogFiles, '|') {}
  lemma DocFilesFree() ensures FreeOf(DocFiles, '|') {}
  lemma IdeFilesFree() ensures FreeOf(IdeFiles, '|') {}
  lemma DatabaseFilesFree() ensures FreeOf(DatabaseFiles, '|') {}
  lemma DataFilesFree() ensures FreeOf(DataFiles, '|') {}

  /** The cloc command count_lines_in_repo runs hands cloc both exclusion lists unchanged. */
  lemma ClocCommandListsExclusions()
    ensures var (dirs, files) := ExcludePatterns();
      var args := ClocArgs(dirs, files);
      |args| == 5 && StartsWith(args[3], ExcludeDirFlag) && StartsWith(args[4], NotMatchFlag) && EndsWith(args[4], ")")
      && Split(args[3][|ExcludeDirFlag|..], ',') == dirs
      && Split(args[4][|NotMatchFlag|..|args[4]| - 1], '|') == files
  {
    DirGroupsFreeOfComma();
    FileGroupsFreeOfBar();
    FreeOfFlatten(DirGroups, ',');
    FreeOfFlatten(FileGroups, '|');
    ClocArgsListExclusions(Flatten(DirGroups), Flatten(FileGroups));
  }

  // ---------------------------------------------------------------------------
  // count_lines_in_repo

  datatype LineCounts = LineCounts(filtered: int, total: int)

  /** `int(stdout.strip())` for wc's output, restricted to plain decimal numerals. */
  function WcTotal(stdout: string): (r: Option<nat>)
    ensures r.Some? <==> Strip(stdout) != "" && AllDigits(Strip(stdout))
  {
    var t := Strip(stdout);
    if t != "" && AllDigits(t) then Some(ParseNat(t)) else None
  }

  /** `wc -l` prints the count and a newline; reading it back gives the count. */
  lemma WcTotalReadsCount(n: nat)
    ensures WcTotal(NatToString(n) + "\n") == Some(n)
  {
    var d := NatToString(n);
    var s := d + "\n";
    assert forall m :: 0 <= m < |d| ==> s[m] == d[m] && !IsSpace(s[m]);
    assert SkipSpaces(s, 0) == 0;
    var r := Strip(s);
    assert r == s[0..|r|];
    assert !IsSpace(s[|d| - 1]);
    assert |r| >= |d|;
    assert r[|r| - 1] == s[|r| - 1];
    assert IsSpace(s[|d|]);
    assert |r| == |d|;
    assert r == d;
    ParseNatToString(n);
  }

  /**
   * The code, blank and comment counts under "SUM", or zeros without a "SUM" key; None when
   * SUM lacks one of the three keys (a KeyError).
   */
  function ClocSum(data: Json): (r: Option<(int, int, int)>)
    ensures !data.JObj? ==> r.None?
    ensures data.JObj? && "SUM" !in data.fields ==> r == Some((0, 0, 0))
    ensures data.JObj? && "SUM" in data.fields ==>
      var sum := data.fields["SUM"];
      (r.Some? <==>
         (sum.JObj? && "code" in sum.fields && "blank" in sum.fields && "comment" in sum.fields
          && sum.fields["code"].JInt? && sum.fields["blank"].JInt? && sum.fields["comment"].JInt?))
      && (r.Some? ==> r.value == (sum.fields["code"].i, sum.fields["blank"].i, sum.fields["comment"].i))
  {
    if !data.JObj? then None
    else if "SUM" !in data.fields then Some((0, 0, 0))
    else
      var sum := data.fields["SUM"];
      if sum.JObj? && "code" in sum.fields && "blank" in sum.fields && "comment" in sum.fields
        && sum.fields["code"].JInt? && sum.fields["blank"].JInt? && sum.fields["comment"].JInt?
      then Some((sum.fields["code"].i, sum.fields["blank"].i, sum.fields["comment"].i))
      else None
  }

  /**
   * count_lines_in_repo given the two commands' outputs (None when a command failed): the
   * cloc code count and the wc total, or zeros when anything raises.
   */
  function CountLines(wcOut: Option<string>, clocOut: Option<Json>): (c: LineCounts)
    ensures wcOut.None? || WcTotal(wcOut.value).None? || clocOut.None? || ClocSum(clocOut.value).None? ==> c == LineCounts(0, 0)
    ensures wcOut.Some? && WcTotal(wcOut.value).Some? && clocOut.Some? && ClocSum(clocOut.value).Some? ==>
      c == LineCounts(ClocSum(clocOut.value).value.0, WcTotal(wcOut.value).value)
  {
    if wcOut.None? then LineCounts(0, 0)
    else match WcTotal(wcOut.value)
      case None => LineCounts(0, 0)
      case Some(total) =>
        if clocOut.None? then LineCounts(0, 0)
        else match ClocSum(clocOut.value)
          case None => LineCounts(0, 0)
          case Some(sum) => LineCounts(sum.0, total)
  }

  /** cloc output without a "SUM" section counts as zero filtered lines. */
  lemma CountLinesWithoutSum(n: nat, fields: map<string, Json>)
    requires "SUM" !in fields
    ensures CountLines(Some(NatToString(n) + "\n"), Some(JObj(fields))) == LineCounts(0, n)
  {
    WcTotalReadsCount(n);
  }

  /** With cloc's SUM section and wc's count, the filtered lines are cloc's code count. */
  lemma CountLinesReadsSum(n: nat, code: int, blank: int, comment: int)
    ensures CountLines(Some(NatToString(n) + "\n"),
      Some(JObj(map["SUM" := JObj(map["code" := JInt(code), "blank" := JInt(blank), "comment" := JInt(comment)])])))
      == LineCounts(code, n)
  {
    WcTotalReadsCount(n);
  }

  // ---------------------------------------------------------------------------
  // main: per-repository rows and organisation totals

  /** What main learns about one repository. */
  datatype RepoInput = RepoInput(
    name: string, cloned: bool, wcOut: Option<string>, clocOut: Option<Json>,
    openIssues: Response, closedIssues: Response, pulls: Response, lastUpdated: string)

  datatype RepoResult = RepoResult(
    repository: string, filteredLines: int, totalLines: int, totalIssues: nat,
    openIssues: nat, closedIssues: nat, pullRequests: nat, lastUpdated: string)

  function ProcessRepo(r: RepoInput): (res: RepoResult)
    ensures res.totalIssues == res.openIssues + res.closedIssues
    ensures !r.cloned ==> res.filteredLines == 0 && res.totalLines == 0
  {
    var lines := if r.cloned then CountLines(r.wcOut, r.clocOut) else LineCounts(0, 0);
    var issues := FastIssueCounts(r.openIssues, r.closedIssues);
    RepoResult(r.name, lines.filtered, lines.total, issues.total, issues.open, issues.closed,
      FastPrCount(r.pulls), r.lastUpdated)
  }

  /** The loop of main: one row per repository, in the organisation's order. */
  method CollectResults(repos: seq<RepoInput>) returns (results: seq<RepoResult>)
    ensures |results| == |repos|
    ensures forall i :: 0 <= i < |repos| ==> results[i] == ProcessRepo(repos[i])
  {
    results := [];
    for i := 0 to |repos|
      invariant |results| == i
      invariant forall k :: 0 <= k < i ==> results[k] == ProcessRepo(repos[k])
    {
      results := results + [ProcessRepo(repos[i])];
    }
  }

  datatype OrgTotals = OrgTotals(filtered: int, total: int, issues: int, open: int, closed: int, pulls: int)

  function FilteredOf(r: RepoResult): int { r.filteredLines }
  function TotalOf(r: RepoResult): int { r.totalLines }
  function IssuesOf(r: RepoResult): int { r.totalIssues }
  function OpenOf(r: RepoResult): int { r.openIssues }
  function ClosedOf(r: RepoResult): int { r.closedIssues }
  function PullsOf(r: RepoResult): int { r.pullRequests }

  /** The sums main prints under the table. */
  function Totals(rs: seq<RepoResult>): OrgTotals {
    OrgTotals(SumOf(rs, FilteredOf), SumOf(rs, TotalOf), SumOf(rs, IssuesOf),
      SumOf(rs, OpenOf), SumOf(rs, ClosedOf), SumOf(rs, PullsOf))
  }

  /** The totals are element-wise: one more row adds exactly that row's counts. */
  lemma TotalsAddRow(rs: seq<RepoResult>, r: RepoResult)
    ensures var before, after := Totals(rs), Totals(rs + [r]);
      after == OrgTotals(before.filtered + r.filteredLines, before.total + r.totalLines,
        before.issues + r.totalIssues, before.open + r.openIssues,
        before.closed + r.closedIssues, before.pulls + r.pullRequests)
  {
    SumOfAppend(rs, [r], FilteredOf);
    SumOfAppend(rs, [r], TotalOf);
    SumOfAppend(rs, [r], IssuesOf);
    SumOfAppend(rs, [r], OpenOf);
    SumOfAppend(rs, [r], ClosedOf);
    SumOfAppend(rs, [r], PullsOf);
  }

  /** The organisation's issue total is its open total plus its closed total. */
  lemma {:induction false} TotalIssuesSplit(rs: seq<RepoResult>)
    requires forall i :: 0 <= i < |rs| ==> rs[i].totalIssues == rs[i].openIssues + rs[i].closedIssues
    ensures Totals(rs).issues == Totals(rs).open + Totals(rs).closed
    decreases |rs|
  {
    if rs != [] {
      TotalIssuesSplit(rs[1..]);
      assert forall i :: 0 <= i < |rs| - 1 ==> rs[1..][i] == rs[i + 1];
    }
  }

  lemma CollectedTotalsSplit(repos: seq<RepoInput>, results: seq<RepoResult>)
    requires |results| == |repos| && forall i :: 0 <= i < |repos| ==> results[i] == ProcessRepo(repos[i])
    ensures Totals(results).issues == Totals(results).open + Totals(results).closed
  {
    TotalIssuesSplit(results);
  }
}
