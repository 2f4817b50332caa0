# A verified model of the codehub automation scripts

This project models, in Dafny, the parts of the GDP-ADMIN codehub repository that
carry real logic, and proves properties of them.

- **The microVM manager** (`firecracker/backends/firecracker_manager.py`).
  - Module `VmIdentity` derives each VM's guest MAC, IP, SSH port, HTTP URL, socket
    path and file names from its id.
  - Module `VmConfig` builds the per-type boot document (`vmm.json`).
  - Module `NatTable` models the host's iptables nat table as an ordered rule list.
    `start_vm` adds each of its two rules only when absent; `stop_vm` deletes one copy of each.
  - Module `VmManager` holds class `Manager` with four fields:
    - the metadata directory (a map from file name to parsed contents);
    - the per-VM data directories;
    - the rule table;
    - the multiset of hypervisors launched and not yet killed (one entry per launch).

    Its methods are `create_vm_config`, `start_vm`, `stop_vm`, `delete_vm`, `list_vms` and the
    Flask routes. The outcome of each `iptables -A` that `start_vm` runs is a parameter. A
    failing one raises after the hypervisor has been launched, with no record written.
    Every method keeps the invariant `Inv`, failures included:
    - no rule is installed twice, and a MASQUERADE rule only alongside its DNAT rule;
    - an id with a DNAT rule has a launched hypervisor that was not killed;
    - every record has a data directory;
    - every running record has both its rules installed;
    - every record's `vm_type` is null.

    The stronger `Synced` holds as long as no `iptables -A` has failed: each VM's two rules
    are installed together or not at all, and a launched, unkilled hypervisor exists exactly
    for the ids whose rules are installed. A failed DNAT add breaks it (`FailedStartOrphansHypervisor`), and so
    does a failed MASQUERADE add (`FailedMasqueradeAddUnpairs`).

    The last clause of `Inv` shows something about the code: `create_vm_config` never
    writes a metadata record, and `start_vm` copies `vm_type` from the previous record. So,
    starting from empty directories, no VM ever gets a recorded type (`VmTypeAlwaysNull`).
- **The first prototype** (`firecracker/backends/firecracker_manager-1st.py`). Module
  `VmStoreV1` models it as a record store (class `Store`) with the create, stop, delete
  and list routes, their 400/404 guards, and `create_image` validation. The hypervisor and
  curl calls are recorded as an ordered log of issued API calls. How the blocking
  hypervisor launch ends (it returns, never returns, or raises) is a parameter of the create
  routes. A raising launch and a record file that cannot be opened both make the create
  answer 500.
- **The organisation metrics script**
  (`devsecops/github_metrics_total_lines_of_codes.py`). Module `GithubMetrics` covers:
  - the `Link`-header regex search and the page-count arithmetic;
  - the issue and pull-request counts with their zero fallbacks;
  - the cloc command line;
  - reading `wc -l` and cloc's `SUM`;
  - the organisation totals.
- **The weekly statistics scripts** (`devsecops/claude.py` and
  `devsecops/claude_total_lines_of_code.py`).
  - Module `RepoActivity` holds what the two scripts share:
    - the cap of 20 commits;
    - the net lines changed;
    - the windowed pull-request and closed-issue loops with their early `break`;
    - the distinct contributors;
    - the case-insensitive name search;
    - the dropping of failed repositories.
  - Module `ClaudeStats` has `process_single_repo`, `get_github_stats` and `print_stats` of `claude.py`.
  - Module `ClaudeLines` has the worklist walk of `get_total_lines`, the row, the search and `print_summary`.
  - Module `Aggregates` has the sums and an in-place descending sort by key, which the reports use.
- **The Bedrock client** (`aws-ai/bedrock.py`). Module `Bedrock` covers:
  - the provider table searched with `re.fullmatch` on `^<provider>.*` patterns;
  - the request-body builders and response parsers, without their floating-point fields;
  - the `STOP_SEQUENCES` check;
  - the menu choice;
  - the rule that an empty generation is no answer.

Shared helpers:
- `Wrappers`: `Option` and `Result`.
- `Json`: JSON values, Python truthiness, `dict.get`, a reply.
- `Text`: decimal and hex formatting, `startswith`/`endswith`, `strip`, `split`/`join`, `lower`.

Shell commands, subprocesses, HTTP calls and API calls do not appear as effects. Their
results become parameters, such as the outcome of an image script, the ping answers or a
response's Link header and body. Their effects become updates to the modelled state.
Timestamps are integers.

## Model

| member | source | states |
|---|---|---|
| VmIdentity.GuestMacIff | firecracker/backends/firecracker_manager.py:53-54 | two ids get the same MAC exactly when they agree modulo 256 |
| VmIdentity.SshPortFormula | firecracker/backends/firecracker_manager.py:154-157 | the port `int("2200"+id)` is 22000+id for ids 1..9 and 220+id otherwise |
| VmIdentity.SshPortInjective | firecracker/backends/firecracker_manager.py:154-157 | over the random-id range 0..9999 distinct ids get distinct SSH ports |
| VmIdentity.SshPortRange | firecracker/backends/firecracker_manager.py:154-157 | ids 1..9 get ports 22001..22009, the other ids below 10000 get 220..10219 |
| VmIdentity.SshPortCollision | firecracker/backends/firecracker_manager.py:196-199 | beyond that range the port is not injective: ids 1 and 21781 both get 22001 |
| VmIdentity.IpInjective | firecracker/backends/firecracker_manager.py:153 | the IP `172.16.0.<id>` determines the id |
| VmIdentity.HttpUrlShape | firecracker/backends/firecracker_manager.py:191-193 | the HTTP URL is `http://172.16.0.<id>:80` |
| VmIdentity.SocketPathInjective | firecracker/backends/firecracker_manager.py:207 | the socket path `/tmp/firecracker-<id>.socket` determines the id |
| VmIdentity.MetaFileNameListed | firecracker/backends/firecracker_manager.py:315 | every record file `vm-<id>.json` passes list_vms' filter, and distinct ids have distinct files |
| VmConfig.DrivePathOf | firecracker/backends/firecracker_manager.py:58-87 | the root drive's path_on_host is the type's image path, or null for a type without image |
| VmConfig.DocumentMacOf | firecracker/backends/firecracker_manager.py:96-104 | the network interface carries the id's guest MAC |
| VmConfig.ImagePathShape | firecracker/backends/firecracker_manager.py:59-76 | only nodejs and python have an image, which lies in the VM's directory and is named after the id (`..._<id>.ext4`) |
| VmConfig.DocumentContents | firecracker/backends/firecracker_manager.py:79-117 | the document has the id's MAC, and a string drive path exactly for nodejs and python |
| VmConfig.ImagePathDeterminesId | firecracker/backends/firecracker_manager.py:63-74 | two ids with the same typed image path are equal |
| VmConfig.GenericDocumentsCoincide | firecracker/backends/firecracker_manager.py:79-117 | for other types, two ids get the same document exactly when they agree modulo 256 |
| VmConfig.TypedDocumentDeterminesId | firecracker/backends/firecracker_manager.py:79-117 | for nodejs and python, two ids get the same document exactly when they are equal |
| NatTable.AddIfAbsent | firecracker/backends/firecracker_manager.py:170-173 | `iptables -C` then `-A`: the table only grows at its end, the rule ends up with at least one copy, and no other rule's count changes |
| NatTable.DeleteFirst | firecracker/backends/firecracker_manager.py:262-268 | `iptables -D` removes exactly the first copy of the rule, or nothing when it is absent |
| NatTable.RulesOfDistinctIds | firecracker/backends/firecracker_manager.py:160-189 | distinct ids have distinct DNAT and MASQUERADE rules |
| NatTable.AttachExactlyOnce | firecracker/backends/firecracker_manager.py:160-189 | after start_vm's two check-then-adds, each of the id's rules is present exactly once; all other rules keep their counts |
| NatTable.AttachIdempotent | firecracker/backends/firecracker_manager.py:160-189 | attaching twice is the same as attaching once |
| NatTable.AttachRepeatedly | firecracker/backends/firecracker_manager.py:160-189 | after any number n ≥ 1 of starts, the table is as after the first one |
| NatTable.DeleteFirstAfterAppend | firecracker/backends/firecracker_manager.py:262-268 | deleting a rule that was appended to a table without it gives back the rest unchanged |
| NatTable.DetachAfterAttach | firecracker/backends/firecracker_manager.py:262-276 | stopping right after starting restores a table that held none of the id's rules |
| NatTable.DetachRemoves | firecracker/backends/firecracker_manager.py:262-276 | after stop_vm's two deletes the id has no rules left and every other rule keeps its count |
| NatTable.AttachKeepsPaired | firecracker/backends/firecracker_manager.py:160-189 | starting keeps every id's two rules installed together, once each |
| NatTable.DetachKeepsPaired | firecracker/backends/firecracker_manager.py:262-276 | stopping keeps the pairing and leaves the id with no DNAT rule |
| NatTable.AttachWithoutFailure | firecracker/backends/firecracker_manager.py:170-189 | when both `iptables -A` succeed nothing raises, and when nothing raises the table is as after the plain attach |
| NatTable.AttachWithCounts | firecracker/backends/firecracker_manager.py:170-189 | whichever `-A` fails, no rule of the id is duplicated or removed, a MASQUERADE rule is added only next to its DNAT rule, and other rules keep their counts |
| NatTable.AttachWithKeepsWellFormed | firecracker/backends/firecracker_manager.py:170-189 | whichever `-A` fails, the table keeps no rule twice and no MASQUERADE rule without its DNAT rule, and other ids keep their rules |
| NatTable.DetachKeepsWellFormed | firecracker/backends/firecracker_manager.py:262-276 | stopping keeps that shape and leaves the id with neither rule |
| NatTable.FailedDnatAddKeepsTable | firecracker/backends/firecracker_manager.py:170-173 | a failed DNAT add raises and leaves the table unchanged |
| NatTable.FailedMasqueradeAddUnpairs | firecracker/backends/firecracker_manager.py:186-189 | a failed MASQUERADE add after a fresh DNAT add raises and leaves the DNAT rule alone, so the table is no longer paired |
| VmManager.VmTypeOf | firecracker/backends/firecracker_manager.py:238-244 | get_vm_type: None without a record, "unknown" for a record without `vm_type`, an exception for a file that does not load as an object |
| VmManager.MarkStopped | firecracker/backends/firecracker_manager.py:277-291 | stop_vm's record update changes only the `status` of the id's record, to "stopped"; it fails exactly when the record does not load as an object |
| VmManager.VmTypeAlwaysNull | firecracker/backends/firecracker_manager.py:205 | in every state the manager reaches from empty directories, get_vm_type answers None |
| VmManager.CreateKeepsInv | firecracker/backends/firecracker_manager.py:51-127 | changing a data directory keeps the invariant |
| VmManager.AttachKeepsLinks | firecracker/backends/firecracker_manager.py:150-189 | the launch and the attach, whichever `-A` fails, keep the table's shape, give every id with a DNAT rule a hypervisor, and keep every installed pair of rules |
| VmManager.AttachKeepsSync | firecracker/backends/firecracker_manager.py:150-189 | when no `-A` fails, the launch and the attach keep the rules paired and matched to the hypervisors, with both of the id's rules once |
| VmManager.FailedStartOrphansHypervisor | firecracker/backends/firecracker_manager.py:150-173 | a failed DNAT add raises with the launched hypervisor left without rules |
| VmManager.WriteRunningKeepsRecords | firecracker/backends/firecracker_manager.py:232-233 | writing the running record keeps the record clauses of the invariant |
| VmManager.StartKeepsInv | firecracker/backends/firecracker_manager.py:132-235 | start_vm keeps the invariant, whether it writes the record or an `iptables -A` raises |
| VmManager.StopKeepsInv | firecracker/backends/firecracker_manager.py:247-291 | stop_vm keeps the invariant |
| VmManager.StopKeepsSync | firecracker/backends/firecracker_manager.py:247-276 | stop_vm and delete_vm keep the rules paired and matched to the hypervisors |
| VmManager.DeleteKeepsInv | firecracker/backends/firecracker_manager.py:294-308 | delete_vm keeps the invariant |
| VmManager.StopAfterStart | firecracker/backends/firecracker_manager.py:277-288 | stopping a VM just started leaves its running record with only the status changed, to "stopped" |
| VmManager.DeleteTwice | firecracker/backends/firecracker_manager.py:294-308 | a second delete_vm changes nothing more |
| VmManager.ReadLinesConcat | firecracker/backends/firecracker_manager.py:413 | `readlines` loses nothing: its lines put back together are the file |
| VmManager.ReadLinesShape | firecracker/backends/firecracker_manager.py:413 | every line `readlines` yields is non-empty and has '\n' at most as its last character |
| VmManager.StripLine | firecracker/backends/firecracker_manager.py:414 | a stripped line holds no '\n', and no NUL unless it had one |
| VmManager.KeepLogLinesClean | firecracker/backends/firecracker_manager.py:414 | the kept lines hold no NUL and no '\n'; there are at most as many as input lines, and exactly as many when no line has a NUL |
| VmManager.LogLinesClean | firecracker/backends/firecracker_manager.py:412-414 | the logs vm_logs returns hold no NUL and no newline, and are at most the file's lines |
| VmManager.RequestedId | firecracker/backends/firecracker_manager.py:331-334 | a falsy vm_id is replaced by the random id, an integer is kept, anything else fails |
| VmManager.WaitForPing | firecracker/backends/firecracker_manager.py:215-231 | the probe loop reports a response exactly when some probe within the timeout was answered |
| VmManager.Manager.constructor | firecracker/backends/firecracker_manager.py:21-24 | a manager started on empty directories and a table of other software's rules has no hypervisors and satisfies both invariants |
| VmManager.Manager.CreateVmConfig | firecracker/backends/firecracker_manager.py:51-127 | creates the data directory; a failed image script raises before vmm.json is written; otherwise the produced image is moved in and the boot document is written and returned |
| VmManager.Manager.StartVm | firecracker/backends/firecracker_manager.py:132-235 | raises when the data directory is missing; otherwise it writes the start script and log and launches one hypervisor; a failing `iptables -A` then raises with the rules added so far and no record; otherwise both rules are attached and it writes the running record with the previous type, or raises when get_vm_type raises |
| VmManager.Manager.AddRules | firecracker/backends/firecracker_manager.py:160-189 | the two check-then-add steps stop at the first failing `-A`, report whether one failed, and touch nothing but the table |
| VmManager.Manager.RecordStart | firecracker/backends/firecracker_manager.py:196-235 | the end of start_vm writes the running record with the previous type, or raises when get_vm_type raises, and changes nothing else |
| VmManager.Manager.StopVm | firecracker/backends/firecracker_manager.py:247-291 | kills the id's hypervisors, deletes one copy of each of its rules and marks the record stopped; it answers false exactly when the record cannot be updated |
| VmManager.Manager.DeleteVm | firecracker/backends/firecracker_manager.py:294-308 | stops the VM, removes its data directory and record, and always answers true |
| VmManager.Manager.ListVms | firecracker/backends/firecracker_manager.py:311-319 | returns exactly the records of the `vm-*.json` files, each once, or raises when one of them does not load |
| VmManager.Manager.StopVmRoute | firecracker/backends/firecracker_manager.py:367-375 | 404 without a record and no change; otherwise stop_vm's effect, with 200 or 500 as stop_vm answers |
| VmManager.Manager.DeleteVmRoute | firecracker/backends/firecracker_manager.py:389-397 | 404 without a record and no change; otherwise delete_vm's effect and 200 |
| VmManager.Manager.StartVmRoute | firecracker/backends/firecracker_manager.py:377-386 | no existence check: start_vm's effect, its record with 200, or a server error when it raises, a failing `iptables -A` included |
| VmManager.Manager.CreateVmRoute | firecracker/backends/firecracker_manager.py:329-365 | a falsy vm_id takes the random id; the id's data directory becomes what create_vm_config leaves (boot document and moved image, or unchanged when the image script fails) and no other directory changes; the reply is the created message, or a server error when the script fails |
| VmManager.Manager.VmLogsRoute | firecracker/backends/firecracker_manager.py:404-417 | 404 without vm.log, otherwise the id and the log's cleaned lines |
| VmManager.CreatedVm | firecracker/backends/firecracker_manager.py:348-365 | after creating python VM 5 on a fresh manager, only its data directory exists, holding the boot document and the image, with no record, rule or hypervisor |
| VmManager.StartedVm | firecracker/backends/firecracker_manager.py:348-386 | after creating and starting VM 5, there is one running record with null type, its two rules and one hypervisor |
| VmManager.FailedStart | firecracker/backends/firecracker_manager.py:150-189 | when VM 5's DNAT add fails, the hypervisor stays launched with no rule and no record, and the rules are out of sync |
| VmManager.StoppedVm | firecracker/backends/firecracker_manager.py:367-375 | stopping the started VM 5 marks its record stopped and leaves no rule and no hypervisor |
| VmManager.DeleteRouteTwice | firecracker/backends/firecracker_manager.py:389-397 | deleting a recorded VM twice answers 200 then 404; its record and data directory are gone, its rules detached and its hypervisors killed, and both invariants are kept |
| VmManager.Lifecycle | firecracker/backends/firecracker_manager.py:329-397 | create, start, stop and two deletes leave the manager empty: no record, data directory, rule or hypervisor |
| VmStoreV1.GetVmConfig | firecracker/backends/firecracker_manager-1st.py:53-58 | the record stored under `vm_<id>.json`, or None exactly when there is none |
| VmStoreV1.CreateImage | firecracker/backends/firecracker_manager-1st.py:245-268 | 400 when os or runtime is missing; 400 "Unsupported base OS" for a hashable os outside BASE_IMAGES; 201 with the table's image path exactly for a known os; 500 for an unhashable os |
| VmStoreV1.FileNameListed | firecracker/backends/firecracker_manager-1st.py:65 | every record file passes list_vms' filter, and two ids share a file exactly when their texts agree |
| VmStoreV1.SaveThenGet | firecracker/backends/firecracker_manager-1st.py:41-58 | get_vm_config answers the last record saved for the id, and saving leaves other ids' records alone |
| VmStoreV1.ConfigShape | firecracker/backends/firecracker_manager-1st.py:86-179 | each configuration determines the id, and the nodejs and python ones share their image path |
| VmStoreV1.Store.constructor | firecracker/backends/firecracker_manager-1st.py:36-38 | an empty store with no issued calls |
| VmStoreV1.Store.CreateVm | firecracker/backends/firecracker_manager-1st.py:79-194 | 400 "Missing vm_id" and no change for a falsy id; a launch that does not return leaves only the launch issued, nothing saved and no reply; a launch that raises leaves only the launch issued, nothing saved and a 500; otherwise launch, boot source and Start are issued in order, and a running record of the route's type is saved and readable with a 200, or, for an id whose file cannot be opened, nothing is saved and the answer is 500 |
| VmStoreV1.Store.SaveVmConfig | firecracker/backends/firecracker_manager-1st.py:41-50 | overwrites the id's file with the four-key record, or reports failure and changes nothing when the id's text holds '/' or NUL |
| VmStoreV1.IntIdWritable | firecracker/backends/firecracker_manager-1st.py:196-209 | the stop route's integer id always names a file that can be opened |
| VmStoreV1.UnsavedCreates | firecracker/backends/firecracker_manager-1st.py:79-116 | a concrete create for id "a/b" answers 500 with nothing saved, one whose launch does not return gets no reply, and one whose launch raises gets a 500 before either PUT |
| VmStoreV1.Store.StopVm | firecracker/backends/firecracker_manager-1st.py:196-209 | 404 and no change for an unknown id; otherwise Stop is issued and the record saved as stopped, with its config and type kept |
| VmStoreV1.Store.DeleteVm | firecracker/backends/firecracker_manager-1st.py:211-226 | 404 for an unknown id; otherwise Stop is issued only for a running VM, and afterwards the id has no record |
| VmStoreV1.Store.ListVms | firecracker/backends/firecracker_manager-1st.py:61-69 | returns exactly the records stored under `vm_*.json` names, each once; in a store where each record lies in its own id's file, get_vm_config of each listed record's id gives that record back |
| GithubMetrics.SearchFrom | devsecops/github_metrics_total_lines_of_codes.py:43 | `re.search`: the leftmost position where `page=<digits>>; rel="last"` matches, or none |
| GithubMetrics.LinkLastPage | devsecops/github_metrics_total_lines_of_codes.py:37-46 | None for a missing header or no match; otherwise the digits of the first match |
| GithubMetrics.MatchOfLastLink | devsecops/github_metrics_total_lines_of_codes.py:43-45 | a numeral after `page=` and before `>; rel="last"` is a match, and its value is read |
| GithubMetrics.SearchFindsFirst | devsecops/github_metrics_total_lines_of_codes.py:43 | a match with none to its left is the one the search finds |
| GithubMetrics.LinkLastPageOf | devsecops/github_metrics_total_lines_of_codes.py:37-46 | a header whose first match is `page=<n>>; rel="last"` yields n |
| GithubMetrics.TotalCount | devsecops/github_metrics_total_lines_of_codes.py:48-61 | from a nonzero last page L: (L-1)*100 plus the page's length when the URL ends in `page=L` (failing when the length fails), L*100 otherwise; the page's length without a usable header |
| GithubMetrics.CountWithinLastPage | devsecops/github_metrics_total_lines_of_codes.py:56-57 | on the last page the count exists exactly when the page's length does; it is (L-1)*100 plus that length, and at most L*100 for a page of at most 100 items |
| GithubMetrics.FastIssueCounts | devsecops/github_metrics_total_lines_of_codes.py:63-97 | total = open + closed, and any failure gives all zeros |
| GithubMetrics.FastPrCount | devsecops/github_metrics_total_lines_of_codes.py:99-118 | the response's count, or 0 on failure |
| GithubMetrics.ClocArgsListExclusions | devsecops/github_metrics_total_lines_of_codes.py:208-214 | the two cloc arguments are the flags followed by the joined lists, and splitting them at ',' and '\|' gives the lists back |
| GithubMetrics.FreeOfFlatten | devsecops/github_metrics_total_lines_of_codes.py:122-192 | the lists built from groups without a separator hold no separator |
| GithubMetrics.DirGroupsFreeOfComma | devsecops/github_metrics_total_lines_of_codes.py:122-157 | no group of excluded directories holds a name with ',' |
| GithubMetrics.FileGroupsFreeOfBar | devsecops/github_metrics_total_lines_of_codes.py:159-190 | no group of excluded file patterns holds a pattern with '\|' |
| GithubMetrics.ClocCommandListsExclusions | devsecops/github_metrics_total_lines_of_codes.py:208-214 | the cloc command count_lines_in_repo runs hands cloc both exclusion lists unchanged |
| GithubMetrics.WcTotal | devsecops/github_metrics_total_lines_of_codes.py:229 | `int(stdout.strip())` succeeds exactly for a stripped decimal numeral |
| GithubMetrics.WcTotalReadsCount | devsecops/github_metrics_total_lines_of_codes.py:200-229 | wc's printed count followed by a newline reads back as the count |
| GithubMetrics.ClocSum | devsecops/github_metrics_total_lines_of_codes.py:242-246 | output without a "SUM" section gives zeros; with one, the three counts are read exactly when SUM is an object whose code, blank and comment are integers, and fail otherwise (a KeyError or a non-object) |
| GithubMetrics.CountLinesReadsSum | devsecops/github_metrics_total_lines_of_codes.py:242-260 | with cloc's SUM section and wc's count, the filtered lines are cloc's code count and the total is wc's count |
| GithubMetrics.CountLines | devsecops/github_metrics_total_lines_of_codes.py:195-270 | {filtered: cloc's code count, total: wc's total}, or {0, 0} when anything fails |
| GithubMetrics.CountLinesWithoutSum | devsecops/github_metrics_total_lines_of_codes.py:242-260 | cloc output without "SUM" counts zero filtered lines next to the wc total |
| GithubMetrics.ProcessRepo | devsecops/github_metrics_total_lines_of_codes.py:323-345 | a row has total issues = open + closed, and zero line counts when the clone fails |
| GithubMetrics.CollectResults | devsecops/github_metrics_total_lines_of_codes.py:316-345 | one row per repository, in order |
| GithubMetrics.TotalsAddRow | devsecops/github_metrics_total_lines_of_codes.py:358-363 | the totals are element-wise sums: one more row adds exactly its counts |
| GithubMetrics.TotalIssuesSplit | devsecops/github_metrics_total_lines_of_codes.py:358-362 | when every row's total is open + closed, so is the organisation's |
| GithubMetrics.CollectedTotalsSplit | devsecops/github_metrics_total_lines_of_codes.py:358-362 | for the rows main collects, total issues = open issues + closed issues |
| RepoActivity.Analysed | devsecops/claude.py:27-28 | the analysed commits are a prefix of length min(20, number of commits) |
| RepoActivity.NetChange | devsecops/claude.py:32-35 | the net change is the additions minus the deletions of the commits whose statistics load |
| RepoActivity.SumLinesChanged | devsecops/claude.py:31-35 | the loop accumulates the net change, skipping commits whose statistics raise |
| RepoActivity.WindowAtMostInWindow | devsecops/claude.py:39-45 | the early-stopping count never exceeds the plain count of times in [start, end] |
| RepoActivity.WindowOfDescending | devsecops/claude.py:38-45 | on a stream sorted newest first, the early stop loses nothing |
| RepoActivity.ClosedTimesOfIssues | devsecops/claude.py:50-51 | the compared times are exactly the closing times of entries that are not pull requests |
| RepoActivity.CountPullRequests | devsecops/claude.py:39-45 | the loop counts the pull requests in the window before the first one created before start |
| RepoActivity.CountIssues | devsecops/claude.py:49-56 | the loop skips pull requests and entries without closed_at, and stops at the first closed before start |
| RepoActivity.ContributorsAre | devsecops/claude.py:59-64 | a name is a contributor exactly when some analysed commit adds it ('unknown' for no author) |
| RepoActivity.ContributorsAtMostCommits | devsecops/claude.py:60-65 | there are never more contributors than analysed commits |
| RepoActivity.CountContributors | devsecops/claude.py:59-65 | the loop counts the distinct contributors |
| RepoActivity.Search | devsecops/claude.py:90-94 | no query keeps every repository; the result is never longer than the input |
| RepoActivity.SearchKeeps | devsecops/claude.py:90-91 | with a query, every copy of a repository whose lower-cased name contains the lower-cased query is kept, and all others are dropped |
| RepoActivity.KeptCount | devsecops/claude.py:108-110 | each result appears exactly as often as processing returned it |
| RepoActivity.KeptPermutation | devsecops/claude.py:107-110 | results collected in any completion order hold the same entries |
| ClaudeStats.StatsOf | devsecops/claude.py:14-71 | None exactly when a fetch raises; otherwise at most 20 commits, contributors ≤ commits, the net change as sum, and counts below the plain window counts |
| ClaudeStats.ProcessSingleRepo | devsecops/claude.py:14-71 | the loops compute StatsOf |
| ClaudeStats.GetGithubStats | devsecops/claude.py:73-116 | [] when listing fails; otherwise the multiset of the non-None rows of the searched repositories |
| ClaudeStats.TotalsOfPermutation | devsecops/claude.py:141-145 | the totals do not depend on the order of the rows |
| ClaudeStats.PrintStats | devsecops/claude.py:118-145 | nothing for no rows; otherwise sorted in place, largest lines-changed first, as a permutation, with the totals of the rows |
| Aggregates.SumOfAppend | devsecops/github_metrics_total_lines_of_codes.py:358-363 | a sum over a concatenation is the sum of the sums |
| Aggregates.SumOfPermutation | devsecops/claude.py:141-145 | reordering a list does not change its sums |
| Aggregates.SortDescending | devsecops/claude.py:126 | `list.sort(key, reverse=True)`: descending by key and a permutation of the input |
| Aggregates.TopAreLargest | devsecops/claude_total_lines_of_code.py:180-181 | the first n entries of a descending rearrangement come from the input and are at least as large as every entry left out |
| ClaudeLines.LineCountAfterTerminated | devsecops/claude_total_lines_of_code.py:35 | each '\n'-terminated line counts once, whatever follows |
| ClaudeLines.OneLine | devsecops/claude_total_lines_of_code.py:35 | a non-empty text without a break is one line |
| ClaudeLines.LineCountOfLines | devsecops/claude_total_lines_of_code.py:35 | n terminated lines count n, and an unterminated last line counts one more |
| ClaudeLines.LineCountAtMostLength | devsecops/claude_total_lines_of_code.py:35 | there are never more lines than characters |
| ClaudeLines.FileLines | devsecops/claude_total_lines_of_code.py:28-37 | a file with a binary suffix or a content that does not decode adds 0; any other file adds the number of lines splitlines finds |
| ClaudeLines.BinaryFilesAddNothing | devsecops/claude_total_lines_of_code.py:30-31 | a file with one of the eight binary suffixes adds 0 lines, whatever its content |
| ClaudeLines.DecodedFileAddsItsLines | devsecops/claude_total_lines_of_code.py:34-35 | a decodable file of n terminated lines and a final unterminated one adds n, plus one when that final line is not empty |
| ClaudeLines.ForestLinesAppend | devsecops/claude_total_lines_of_code.py:22-26 | the lines of a worklist are those of its two parts added |
| ClaudeLines.ForestLinesAreFileSum | devsecops/claude_total_lines_of_code.py:19-39 | the total is the sum over every reachable file, or nothing when some reachable directory cannot be listed |
| ClaudeLines.GetTotalLines | devsecops/claude_total_lines_of_code.py:15-42 | the worklist loop terminates and answers the reachable files' sum, or 0 when a listing raises |
| ClaudeLines.RowOf | devsecops/claude_total_lines_of_code.py:44-101 | None exactly when an activity fetch raises; otherwise the inventory's line total, the shared activity bounds and 'None' for a missing language |
| ClaudeLines.ProcessSingleRepo | devsecops/claude_total_lines_of_code.py:44-101 | the loops compute RowOf |
| ClaudeLines.GetGithubStats | devsecops/claude_total_lines_of_code.py:103-138 | [] when listing fails; otherwise the multiset of the non-None rows of the searched repositories |
| ClaudeLines.PrintSummary | devsecops/claude_total_lines_of_code.py:154-181 | nothing for no rows; otherwise the sums and at most five rows, the largest by line total, in descending order |
| Bedrock.PrefixPatternMatches | aws-ai/bedrock.py:144 | `re.fullmatch("^"+p+".*", s)` holds exactly when s starts with p and holds no newline after it |
| Bedrock.AnyFullMatch | aws-ai/bedrock.py:143-145 | some pattern of the list fully matches the id |
| Bedrock.FindModelConfiguration | aws-ai/bedrock.py:142-146 | the first configuration in table order with a matching pattern, or None exactly when none matches |
| Bedrock.TablePatterns | aws-ai/bedrock.py:12-69 | each configuration has the one pattern `^<provider>.*` over plain letters |
| Bedrock.ConfigMatchesIff | aws-ai/bedrock.py:142-146 | an id matches a configuration exactly when it starts with the provider's name and holds no newline after it |
| Bedrock.AtMostOneMatches | aws-ai/bedrock.py:12-69 | at most one configuration matches any id |
| Bedrock.FoundNamesProvider | aws-ai/bedrock.py:142-146 | the configuration found is that of a provider the id starts with |
| Bedrock.FindProvider | aws-ai/bedrock.py:142-146 | an id starting with a provider's name (and no newline after it) finds that provider's configuration |
| Bedrock.StopField | aws-ai/bedrock.py:19 | `stop_sequences if stop_sequences else []`: [] exactly for none or empty, else the given strings |
| Bedrock.PromptRoundTrip | aws-ai/bedrock.py:58 | every body carries the prompt unchanged, anthropic's exactly inside "\n\nHuman: " and "\n\nAssistant:" |
| Bedrock.BodyStop | aws-ai/bedrock.py:16-63 | every body but meta's carries the stop field; meta's holds only prompt and max_gen_len |
| Bedrock.Generation | aws-ai/bedrock.py:176-182 | the parsed generation when truthy, None when empty |
| Bedrock.MissingKeyMeansNoGeneration | aws-ai/bedrock.py:24-65 | a response without the provider's key yields no generation |
| Bedrock.BlankCompletionMeansNoGeneration | aws-ai/bedrock.py:65 | an anthropic completion of whitespace only yields no generation |
| Bedrock.AmazonReadsFirstResult | aws-ai/bedrock.py:39 | the amazon parser reads outputText of the first result |
| Bedrock.StopSequences | aws-ai/bedrock.py:121-135 | unset means []; otherwise accepted exactly when it decodes to a list of strings |
| Bedrock.GetEnvVariables | aws-ai/bedrock.py:115-136 | fails unless the region is set and non-empty and the stop sequences are accepted; returns both |
| Bedrock.StopSequencesReachBody | aws-ai/bedrock.py:127-136 | a list of strings set in STOP_SEQUENCES reaches the body's stop field unchanged |
| Bedrock.ChooseModel | aws-ai/bedrock.py:236-238 | an accepted choice n lies in 1..len(models) and yields the fourth field of entry n-1 |
| Bedrock.ChooseEntry | aws-ai/bedrock.py:236-238 | an entry made of four '\|'-free fields is accepted for its number and yields its fourth field |
| Bedrock.ChooseSupported | aws-ai/bedrock.py:233-245 | choosing such an entry whose model id starts with a provider's name yields that id, which names the provider |
| Bedrock.MenuModelsSupported | aws-ai/bedrock.py:213-225 | every number of the eleven-model menu is accepted and yields a model id the table has a configuration for |

## Left out

- Shell and process effects are abstracted: `iptables`, `pkill`, `ping`, `firecracker`, the `create_images_*.sh` scripts, `curl`, `git clone`, `cloc` and `wc`. Their outcomes are parameters, and their effects are updates of the modelled table, processes or files.
- VmManager.Manager.StartVm: whether an `iptables -A` fails is a parameter. It is not derived from the rule. For example, an id above 255 gives `172.16.0.<id>`, which is not an IPv4 address. `iptables -C` is modelled as failing exactly when the rule is absent. The hypervisor is started with `nohup ... &` and its result is not checked, so the `hypervisors` multiset counts launches not yet killed, not live processes: a launch that fails and a process that exits are not modelled. Every VM's `vmm.json` names the same `tap0` device, as `VmConfig` reproduces it; that a second VM cannot use a device already in use is not modelled.
- VmManager.Manager.constructor: the model starts from empty metadata and data directories and a table with no rule of this manager. `init_directories` keeps whatever earlier runs left in `./vm_configs` and `./vm-data`, and the nat table may still hold rules from an earlier run. Records or rules left from earlier runs are not modelled. So `VmTypeAlwaysNull` and the invariants hold only from such a clean first start.
- VmManager.WaitForPing: the 30-second wall-clock timeout is replaced by a finite sequence of probe answers. The loop always falls through to the record write.
- Flask routing, `jsonify` and JSON files on disk are modelled as maps from file names to parsed values. `load_file`/`edit_file` (arbitrary file I/O), the index page and the test endpoint are not part of this model.
- The `uuid`-based random id is a parameter in 0..9999.
- VmManager.Manager.CreateVmRoute: a `vm_id` of JSON `true` counts as an error. Python goes ahead with it: the MAC uses `True % 256`, which is 1, but the directory, the script argument and the image names use the text `True`, and the reply echoes `true`.
- VmManager.Manager.StopVm: `pkill` is modelled as killing every hypervisor started for the id. Its regular-expression pattern is not.
- VmManager.LogLines: `readlines` is modelled with '\n' as the only line end. Universal-newline translation and decoding with replacement are not modelled.
- VmStoreV1.Store.CreateVm: a vm_id that is neither a number nor a string is not modelled.
- VmStoreV1.Store.SaveVmConfig: only '/' and NUL make the file unopenable. A name longer than the file system allows, or a directory that cannot be written, is not modelled.
- Ordering of parallel work: the `ThreadPoolExecutor` results of both weekly scripts are specified only as a multiset.
- External services are left out, because they are calls into code that cannot be seen. Their answers are inputs: PyGithub, `requests`, boto3, pandas (`save_to_csv`), tqdm and logging. Lazy pagination is modelled as one fetch that succeeds or raises.
- `wait_for_rate_limit` and `cleanup_repository` are not part of this model, because they only sleep or delete files.
- Floating-point values are left out: the percentages in the metrics report, and temperature/top_p in the Bedrock bodies. The integer top_k and token limits are modelled.
- RepoActivity.Search: `lower()` is modelled for ASCII letters only. Unicode case mapping is not.
- RepoActivity.WindowOfDescending: the issue listing is sorted by update time, not by closing time. So the equality with the plain window count is proved only for streams sorted by the compared time. For the issue loop the model states only the upper bound.
- ClaudeStats.PrintStats: "Total Unique Contributors" is a sum of per-repository counts, as in the source, not a count of distinct people. Sort stability is not stated.
- ClaudeLines.PrintSummary: `sorted` is stable; the model states only descending order, not which of several equal rows come first.
- ClaudeLines.FileLines: base64 and UTF-8 decoding are given as an optional decoded text per file.
- GithubMetrics.WcTotal: `int()` also accepts a sign, underscores and Unicode digits; the model accepts plain ASCII numerals only.
- GithubMetrics.ClocSum: a cloc output that is not an object, or SUM counts that are not integers, count as a failure.
- GithubMetrics.SearchFrom: `\d` is modelled as the ASCII digits only.
- Bedrock.ChooseModel: the input loop, `int()` parsing and the retry after invalid input are I/O. Only one pass of the bounds check and the split is modelled.
- Bedrock.FullMatch: the regular expression is modelled only for the constructs the table uses ('^', '.*' and literals).
- The "messages" API type and the unsupported-type exit in `invoke_model` are not modelled, because every configuration in the table uses "invoke_model". The Bedrock call, retries and `sys.exit` paths are also not modelled.
- `load_environment`, the `.env` lookup, argument parsing and the fixed prompt of `main` are not part of this model.
