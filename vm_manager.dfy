/**
 * The current microVM manager: a metadata directory of JSON records (one per VM,
 * named vm-<id>.json), a data directory per VM (vm_<id> holding vmm.json, the
 * image, start-vm.sh and vm.log), the host's iptables nat table and the hypervisors
 * launched and not yet killed. Shell-outs become operations on this state.
 */
module VmManager {
  import opened Wrappers
  import opened Text
  import opened Json
  import opened VmIdentity
  import opened NatTable
  import opened VmConfig

  /** A file in VM_CONFIG_DIR as json.load sees it. */
  datatype MetaFile = Loaded(value: Json) | Unparsable

  /** What a VM's data directory holds. */
  datatype DataDir = DataDir(config: Option<Json>, images: set<string>, startScript: bool, log: Option<string>)

  const EmptyDir := DataDir(None, {}, false, None)

  /**
   * The id's data directory after create_vm_config: unchanged when the type's image script
   * fails, else it holds the boot document and, when the script left one, the moved image.
   */
  function DirAfterCreate(dataDirs: map<int, DataDir>, id: int, vmType: string, scriptSucceeded: bool, imageProduced: bool): DataDir {
    var before := if id in dataDirs then dataDirs[id] else EmptyDir;
    var image := ImageFileName(id, vmType);
    if image.Some? && !scriptSucceeded then before
    else before.(
      config := Some(VmmDocument(id, vmType)),
      images := if image.Some? && imageProduced then before.images + {image.value} else before.images)
  }

  /** The two routes that create VMs. */
  datatype VmKind = NodeJs | Python {
    function TypeName(): string {
      match this
      case NodeJs => "nodejs"
      case Python => "python"
    }
  }

  // ---------------------------------------------------------------------------
  // Records

  /** The record start_vm writes: it replaces whatever was stored before. */
  function RunningRecord(id: int, vmType: Json): Json {
    JObj(map[
      "vm_id" := JInt(id),
      "status" := JStr("running"),
      "vm_type" := vmType,
      "pid" := JNull,
      "socket" := JStr(SocketPath(id)),
      "ip" := JStr(Ip(id)),
      "ssh_port" := JInt(SshPort(id)),
      "http_port" := JInt(HttpPort),
      "http_url" := JStr(HttpUrl(id))])
  }

  predicate IsRunning(f: MetaFile) {
    f.Loaded? && f.value.JObj? && "status" in f.value.fields && f.value.fields["status"] == JStr("running")
  }

  predicate HasNullType(f: MetaFile) {
    f.Loaded? && f.value.JObj? && "vm_type" in f.value.fields && f.value.fields["vm_type"] == JNull
  }

  /**
   * get_vm_type: None without a record, the record's vm_type (or "unknown" when the key
   * is missing) for a dict, and an exception when the file does not parse or is no dict.
   */
  function VmTypeOf(dir: map<string, MetaFile>, id: int): (r: Result<Json, string>)
    ensures MetaFileName(id) !in dir ==> r == Success(JNull)
    ensures r.Failure? <==> MetaFileName(id) in dir && !(dir[MetaFileName(id)].Loaded? && dir[MetaFileName(id)].value.JObj?)
    ensures r.Success? && MetaFileName(id) in dir && "vm_type" !in dir[MetaFileName(id)].value.fields ==> r.value == JStr("unknown")
  {
    var name := MetaFileName(id);
    if name !in dir then Success(JNull)
    else match dir[name]
      case Unparsable => Failure("JSONDecodeError")
      case Loaded(v) =>
        if v.JObj? then Success(Get(v.fields, "vm_type", JStr("unknown"))) else Failure("AttributeError")
  }

  /** The metadata directory after start_vm: the running record, unless get_vm_type raised first. */
  function ConfigAfterStart(dir: map<string, MetaFile>, id: int): map<string, MetaFile> {
    match VmTypeOf(dir, id)
    case Failure(_) => dir
    case Success(t) => dir[MetaFileName(id) := Loaded(RunningRecord(id, t))]
  }

  /**
   * stop_vm's record update: None when loading the record or assigning its status raises;
   * otherwise the directory in which only the status of the id's record, if any, is "stopped".
   */
  function MarkStopped(dir: map<string, MetaFile>, id: int): (r: Option<map<string, MetaFile>>)
    ensures r.None? <==> MetaFileName(id) in dir && !(dir[MetaFileName(id)].Loaded? && dir[MetaFileName(id)].value.JObj?)
    ensures r.Some? ==> r.value.Keys == dir.Keys
    ensures r.Some? ==> forall n :: n in dir && n != MetaFileName(id) ==> r.value[n] == dir[n]
    ensures r.Some? && MetaFileName(id) in dir ==>
      var before, after := dir[MetaFileName(id)].value, r.value[MetaFileName(id)];
      after.Loaded? && after.value.JObj?
      && after.value.fields.Keys == before.fields.Keys + {"status"}
      && after.value.fields["status"] == JStr("stopped")
      && forall k :: k in before.fields && k != "status" ==> after.value.fields[k] == before.fields[k]
  {
    var name := MetaFileName(id);
    if name !in dir then Some(dir)
    else match dir[name]
      case Unparsable => None
      case Loaded(v) =>
        if v.JObj? then Some(dir[name := Loaded(JObj(v.fields["status" := JStr("stopped")]))]) else None
  }

  function ConfigAfterStop(dir: map<string, MetaFile>, id: int): map<string, MetaFile> {
    MarkStopped(dir, id).GetOr(dir)
  }

  // ---------------------------------------------------------------------------
  // The invariant the manager keeps

  /**
   * The state every operation maintains, including a start_vm whose `iptables -A` fails
   * after the hypervisor was launched: no rule is installed twice and a MASQUERADE rule
   * only alongside its DNAT rule; an id with a DNAT rule has a launched, unkilled hypervisor; every
   * record has a data directory; a record saying "running" has both its rules installed;
   * and every record's vm_type is null, because create_vm_config never writes a record
   * and start_vm copies the old vm_type.
   */
  ghost predicate Inv(configDir: map<string, MetaFile>, dataDirs: map<int, DataDir>, rules: seq<NatRule>, hypervisors: multiset<int>) {
    WellFormed(rules) && RulesHaveProcesses(rules, hypervisors) && RecordsHaveDirs(configDir, dataDirs)
    && RunningHaveRules(configDir, rules) && AllNullType(configDir)
  }

  /**
   * What holds as long as no `iptables -A` has failed: each id's two rules are installed
   * together or not at all, and a launched, unkilled hypervisor exists exactly for the ids whose
   * rules are installed.
   */
  ghost predicate Synced(rules: seq<NatRule>, hypervisors: multiset<int>) {
    Paired(rules) && ProcessesMatchRules(rules, hypervisors)
  }

  ghost predicate ProcessesMatchRules(rules: seq<NatRule>, hypervisors: multiset<int>) {
    forall id :: hypervisors[id] > 0 <==> Count(rules, DnatRule(id)) == 1
  }

  ghost predicate RulesHaveProcesses(rules: seq<NatRule>, hypervisors: multiset<int>) {
    forall id :: Count(rules, DnatRule(id)) == 1 ==> hypervisors[id] > 0
  }

  ghost predicate RecordsHaveDirs(configDir: map<string, MetaFile>, dataDirs: map<int, DataDir>) {
    forall id :: MetaFileName(id) in configDir ==> id in dataDirs
  }

  ghost predicate RunningHaveRules(configDir: map<string, MetaFile>, rules: seq<NatRule>) {
    forall id :: MetaFileName(id) in configDir && IsRunning(configDir[MetaFileName(id)]) ==>
      Count(rules, DnatRule(id)) == 1 && Count(rules, MasqueradeRule(id)) == 1
  }

  ghost predicate AllNullType(configDir: map<string, MetaFile>) {
    forall name :: name in configDir ==> HasNullType(configDir[name])
  }

  /** In every reachable state get_vm_type answers None: no VM ever has a recorded type. */
  lemma VmTypeAlwaysNull(configDir: map<string, MetaFile>, dataDirs: map<int, DataDir>, rules: seq<NatRule>, hypervisors: multiset<int>, id: int)
    requires Inv(configDir, dataDirs, rules, hypervisors)
    ensures VmTypeOf(configDir, id) == Success(JNull)
  {
    if MetaFileName(id) in configDir {
      assert HasNullType(configDir[MetaFileName(id)]);
    }
  }

  lemma CreateKeepsInv(configDir: map<string, MetaFile>, dataDirs: map<int, DataDir>, rules: seq<NatRule>, hypervisors: multiset<int>, id: int, d: DataDir)
    requires Inv(configDir, dataDirs, rules, hypervisors)
    ensures Inv(configDir, dataDirs[id := d], rules, hypervisors)
  {
  }

  /**
   * The nat and process parts of the invariant survive start_vm's launch and attach,
   * whichever `-A` fails; every id's installed rules stay installed.
   */
  lemma AttachKeepsLinks(rules: seq<NatRule>, hypervisors: multiset<int>, id: int, dnatAdded: bool, masqueradeAdded: bool)
    requires WellFormed(rules) && RulesHaveProcesses(rules, hypervisors)
    ensures var u := AttachWith(rules, id, dnatAdded, masqueradeAdded);
      WellFormed(u) && RulesHaveProcesses(u, hypervisors + multiset{id})
      && forall j :: Count(rules, DnatRule(j)) == 1 && Count(rules, MasqueradeRule(j)) == 1 ==>
        Count(u, DnatRule(j)) == 1 && Count(u, MasqueradeRule(j)) == 1
  {
    var u := AttachWith(rules, id, dnatAdded, masqueradeAdded);
    AttachWithKeepsWellFormed(rules, id, dnatAdded, masqueradeAdded);
    AttachWithCounts(rules, id, dnatAdded, masqueradeAdded);
  }

  /** With both adds succeeding, start_vm keeps the table paired and matched to the hypervisors. */
  lemma AttachKeepsSync(rules: seq<NatRule>, hypervisors: multiset<int>, id: int)
    requires Synced(rules, hypervisors)
    ensures Synced(Attach(rules, id), hypervisors + multiset{id})
    ensures Count(Attach(rules, id), DnatRule(id)) == 1 && Count(Attach(rules, id), MasqueradeRule(id)) == 1
  {
    AttachKeepsPaired(rules, id);
    AttachExactlyOnce(rules, id);
  }

  /**
   * A failed DNAT add leaves the launched hypervisor without rules, so the correspondence
   * between hypervisors and rules is lost.
   */
  lemma FailedStartOrphansHypervisor(rules: seq<NatRule>, hypervisors: multiset<int>, id: int, masqueradeAdded: bool)
    requires DnatRule(id) !in rules
    ensures AttachRaises(rules, id, false, masqueradeAdded)
    ensures !ProcessesMatchRules(AttachWith(rules, id, false, masqueradeAdded), hypervisors + multiset{id})
  {
    FailedDnatAddKeepsTable(rules, id, masqueradeAdded);
    assert Count(rules, DnatRule(id)) == 0;
  }

  /** The record parts of the invariant survive writing a running record with a null type. */
  lemma WriteRunningKeepsRecords(configDir: map<string, MetaFile>, dataDirs: map<int, DataDir>, rules: seq<NatRule>, rules': seq<NatRule>, id: int, d: DataDir)
    requires RecordsHaveDirs(configDir, dataDirs) && RunningHaveRules(configDir, rules) && AllNullType(configDir)
    requires id in dataDirs && Count(rules', DnatRule(id)) == 1 && Count(rules', MasqueradeRule(id)) == 1
    requires forall j :: Count(rules, DnatRule(j)) == 1 && Count(rules, MasqueradeRule(j)) == 1 ==>
      Count(rules', DnatRule(j)) == 1 && Count(rules', MasqueradeRule(j)) == 1
    ensures var c := configDir[MetaFileName(id) := Loaded(RunningRecord(id, JNull))];
      RecordsHaveDirs(c, dataDirs[id := d]) && RunningHaveRules(c, rules') && AllNullType(c)
  {
    var c := configDir[MetaFileName(id) := Loaded(RunningRecord(id, JNull))];
    assert HasNullType(Loaded(RunningRecord(id, JNull)));
    forall j | MetaFileName(j) in c
      ensures j in dataDirs[id := d]
      ensures IsRunning(c[MetaFileName(j)]) ==> Count(rules', DnatRule(j)) == 1 && Count(rules', MasqueradeRule(j)) == 1
    {
      MetaFileNameListed(j, id);
    }
  }

  /** The metadata directory after start_vm: unchanged when an `iptables -A` raised. */
  function ConfigAfterStartWith(dir: map<string, MetaFile>, rules: seq<NatRule>, id: int, dnatAdded: bool, masqueradeAdded: bool): map<string, MetaFile> {
    if AttachRaises(rules, id, dnatAdded, masqueradeAdded) then dir else ConfigAfterStart(dir, id)
  }

  /** start_vm keeps the invariant, whether or not one of its `iptables -A` commands fails. */
  lemma StartKeepsInv(configDir: map<string, MetaFile>, dataDirs: map<int, DataDir>, rules: seq<NatRule>, hypervisors: multiset<int>,
                      id: int, d: DataDir, dnatAdded: bool, masqueradeAdded: bool)
    requires Inv(configDir, dataDirs, rules, hypervisors) && id in dataDirs
    ensures Inv(ConfigAfterStartWith(configDir, rules, id, dnatAdded, masqueradeAdded), dataDirs[id := d],
                AttachWith(rules, id, dnatAdded, masqueradeAdded), hypervisors + multiset{id})
  {
    var u := AttachWith(rules, id, dnatAdded, masqueradeAdded);
    AttachKeepsLinks(rules, hypervisors, id, dnatAdded, masqueradeAdded);
    if AttachRaises(rules, id, dnatAdded, masqueradeAdded) {
      forall j | MetaFileName(j) in configDir
        ensures j in dataDirs[id := d]
      {
      }
    } else {
      AttachWithoutFailure(rules, id, dnatAdded, masqueradeAdded);
      AttachExactlyOnce(rules, id);
      VmTypeAlwaysNull(configDir, dataDirs, rules, hypervisors, id);
      WriteRunningKeepsRecords(configDir, dataDirs, rules, u, id, d);
    }
  }

  lemma StopKeepsInv(configDir: map<string, MetaFile>, dataDirs: map<int, DataDir>, rules: seq<NatRule>, hypervisors: multiset<int>, id: int)
    requires Inv(configDir, dataDirs, rules, hypervisors)
    ensures Inv(ConfigAfterStop(configDir, id), dataDirs, Detach(rules, id), hypervisors[id := 0])
  {
    var c, n, h := ConfigAfterStop(configDir, id), Detach(rules, id), hypervisors[id := 0];
    DetachKeepsWellFormed(rules, id);
    DetachRemoves(rules, id);
    if MetaFileName(id) in configDir {
      assert HasNullType(configDir[MetaFileName(id)]);
    }
    forall j | MetaFileName(j) in c
      ensures j in dataDirs
      ensures IsRunning(c[MetaFileName(j)]) ==> Count(n, DnatRule(j)) == 1 && Count(n, MasqueradeRule(j)) == 1
    {
      MetaFileNameListed(j, id);
    }
    forall name | name in c
      ensures HasNullType(c[name])
    {
      if name == MetaFileName(id) {
        assert "vm_type" != "status";
      }
    }
  }

  /** stop_vm (and delete_vm, which makes the same table and process changes) keeps the rules in sync. */
  lemma StopKeepsSync(rules: seq<NatRule>, hypervisors: multiset<int>, id: int)
    requires Synced(rules, hypervisors)
    ensures Synced(Detach(rules, id), hypervisors[id := 0])
  {
    DetachKeepsPaired(rules, id);
    DetachRemoves(rules, id);
  }

  lemma DeleteKeepsInv(configDir: map<string, MetaFile>, dataDirs: map<int, DataDir>, rules: seq<NatRule>, hypervisors: multiset<int>, id: int)
    requires Inv(configDir, dataDirs, rules, hypervisors)
    ensures Inv(ConfigAfterStop(configDir, id) - {MetaFileName(id)}, dataDirs - {id}, Detach(rules, id), hypervisors[id := 0])
  {
    StopKeepsInv(configDir, dataDirs, rules, hypervisors, id);
    forall j | MetaFileName(j) in ConfigAfterStop(configDir, id) - {MetaFileName(id)}
      ensures j in dataDirs - {id}
    {
      MetaFileNameListed(j, id);
    }
  }

  /** delete_vm removes the record whatever stop_vm did to it. */
  lemma RemoveAfterStop(configDir: map<string, MetaFile>, id: int)
    ensures ConfigAfterStop(configDir, id) - {MetaFileName(id)} == configDir - {MetaFileName(id)}
  {
  }

  /** Stopping a VM that start_vm has just started flips its record to "stopped" and nothing else. */
  lemma StopAfterStart(configDir: map<string, MetaFile>, id: int)
    requires VmTypeOf(configDir, id).Success?
    ensures var after := ConfigAfterStop(ConfigAfterStart(configDir, id), id);
      var rec := RunningRecord(id, VmTypeOf(configDir, id).value);
      after == configDir[MetaFileName(id) := Loaded(JObj(rec.fields["status" := JStr("stopped")]))]
  {
  }

  /** A second delete_vm finds nothing left to change. */
  lemma DeleteTwice(configDir: map<string, MetaFile>, dataDirs: map<int, DataDir>, rules: seq<NatRule>, hypervisors: multiset<int>, id: int)
    requires Inv(configDir, dataDirs, rules, hypervisors)
    ensures var c := ConfigAfterStop(configDir, id) - {MetaFileName(id)};
      ConfigAfterStop(c, id) - {MetaFileName(id)} == c
      && Detach(Detach(rules, id), id) == Detach(rules, id)
      && (dataDirs - {id}) - {id} == dataDirs - {id}
      && hypervisors[id := 0][id := 0] == hypervisors[id := 0]
  {
    DetachRemoves(rules, id);
    var t := Detach(rules, id);
    assert DeleteFirst(t, DnatRule(id)) == t;
    assert DeleteFirst(t, MasqueradeRule(id)) == t;
  }

  // ---------------------------------------------------------------------------
  // vm.log as the vm_logs route returns it

  /** Length of the first line of s, its '\n' included (all of s when there is none). */
  function LineLength(s: string): (k: nat)
    requires s != []
    ensures 1 <= k <= |s| && '\n' !in s[..k - 1]
    ensures k < |s| ==> s[k - 1] == '\n'
    decreases |s|
  {
    if s[0] == '\n' || |s| == 1 then 1
    else
      var k := LineLength(s[1..]);
      assert s[..k] == [s[0]] + s[1..][..k - 1];
      k + 1
  }

  /** `f.readlines()`: the text cut after every '\n'. */
  function ReadLines(s: string): seq<string>
    decreases |s|
  {
    if s == [] then [] else
      var k := LineLength(s);
      [s[..k]] + ReadLines(s[k..])
  }

  function Concat(ls: seq<string>): string
    decreases |ls|
  {
    if ls == [] then "" else ls[0] + Concat(ls[1..])
  }

  /** `[line.strip() for line in lines if '\u0000' not in line]`. */
  function KeepLogLines(lines: seq<string>): seq<string>
    decreases |lines|
  {
    if lines == [] then []
    else (if '\U{0000}' in lines[0] then [] else [Strip(lines[0])]) + KeepLogLines(lines[1..])
  }

  function LogLines(s: string): seq<string> {
    KeepLogLines(ReadLines(s))
  }

  /** readlines loses nothing: the lines put back together are the file. */
  lemma {:induction false} ReadLinesConcat(s: string)
    ensures Concat(ReadLines(s)) == s
    decreases |s|
  {
    if s != [] {
      var k := LineLength(s);
      var line, rest := s[..k], s[k..];
      ReadLinesConcat(rest);
      var ls := ReadLines(s);
      assert ls == [line] + ReadLines(rest);
      assert ls[0] == line && ls[1..] == ReadLines(rest);
      assert Concat(ls) == line + Concat(ReadLines(rest));
      assert s == line + rest;
    }
  }

  /** Every line is non-empty and holds a '\n' at most as its last character. */
  lemma {:induction false} ReadLinesShape(s: string)
    ensures forall i :: 0 <= i < |ReadLines(s)| ==>
      ReadLines(s)[i] != [] && '\n' !in ReadLines(s)[i][..|ReadLines(s)[i]| - 1]
    decreases |s|
  {
    if s != [] {
      var k := LineLength(s);
      ReadLinesShape(s[k..]);
      assert ReadLines(s) == [s[..k]] + ReadLines(s[k..]);
      assert s[..k][..k - 1] == s[..k - 1];
    }
  }

  /** A stripped line that had '\n' only at its end holds no '\n', and no NUL unless the line did. */
  lemma StripLine(line: string)
    requires line != [] && '\n' !in line[..|line| - 1]
    ensures '\n' !in Strip(line)
    ensures '\U{0000}' !in line ==> '\U{0000}' !in Strip(line)
  {
    var r := Strip(line);
    var lo := SkipSpaces(line, 0);
    forall p | 0 <= p < |r|
      ensures r[p] != '\n' && ('\U{0000}' !in line ==> r[p] != '\U{0000}')
    {
      assert r[p] == line[lo + p];
      if lo + p < |line| - 1 {
        assert line[..|line| - 1][lo + p] == line[lo + p];
      }
    }
  }

  /** The logs vm_logs returns are the NUL-free lines, stripped: none holds a NUL or a '\n'. */
  lemma {:induction false} KeepLogLinesClean(lines: seq<string>)
    requires forall i :: 0 <= i < |lines| ==> lines[i] != [] && '\n' !in lines[i][..|lines[i]| - 1]
    ensures forall i :: 0 <= i < |KeepLogLines(lines)| ==>
      '\U{0000}' !in KeepLogLines(lines)[i] && '\n' !in KeepLogLines(lines)[i]
    ensures |KeepLogLines(lines)| <= |lines|
    ensures (forall i :: 0 <= i < |lines| ==> '\U{0000}' !in lines[i]) ==> |KeepLogLines(lines)| == |lines|
    decreases |lines|
  {
    if lines != [] {
      var line, rest := lines[0], lines[1..];
      assert forall i :: 0 <= i < |rest| ==> rest[i] == lines[i + 1];
      KeepLogLinesClean(rest);
      var head := if '\U{0000}' in line then [] else [Strip(line)];
      StripLine(line);
      assert KeepLogLines(lines) == head + KeepLogLines(rest);
    }
  }

  lemma LogLinesClean(s: string)
    ensures forall i :: 0 <= i < |LogLines(s)| ==> '\U{0000}' !in LogLines(s)[i] && '\n' !in LogLines(s)[i]
    ensures |LogLines(s)| <= |ReadLines(s)|
  {
    ReadLinesShape(s);
    KeepLogLinesClean(ReadLines(s));
  }

  // ---------------------------------------------------------------------------
  // Request handling helpers

  /**
   * The id a create route works with: a falsy vm_id (missing, null, 0, "", ...) is replaced
   * by the random id; an integer is kept; anything else makes `vm_id % 256` raise.
   */
  function RequestedId(requestId: Json, randomId: int): (r: Option<int>)
    ensures r.None? <==> Truthy(requestId) && !requestId.JInt?
    ensures r.Some? && requestId.JInt? && requestId.i != 0 ==> r.value == requestId.i
    ensures r.Some? && !Truthy(requestId) ==> r.value == randomId
  {
    if !Truthy(requestId) then Some(randomId)
    else if requestId.JInt? then Some(requestId.i)
    else None
  }

  function CreatedReply(id: int, kind: VmKind): Reply {
    Reply(200, JObj(map[
      "status" := JStr("created"),
      "vm_id" := JInt(id),
      "type" := JStr(kind.TypeName()),
      "command_to_start_vm" := JStr("curl -X POST http://localhost:5000/start_vm/" + IntToString(id))]))
  }

  /** The body vm_logs answers with: the id and its log's cleaned lines as JSON strings. */
  function LogsBody(id: int, log: string): Json {
    var lines := LogLines(log);
    JObj(map["vm_id" := JInt(id), "logs" := JArr(seq(|lines|, i requires 0 <= i < |lines| => JStr(lines[i])))])
  }

  /** The readiness wait: true iff some ping within the timeout was answered. */
  method WaitForPing(probes: seq<bool>) returns (responded: bool)
    ensures responded <==> true in probes
  {
    var i := 0;
    while true
      invariant 0 <= i <= |probes|
      invariant forall k :: 0 <= k < i ==> !probes[k]
      decreases |probes| - i
    {
      if i < |probes| && probes[i] {
        return true;
      }
      if i >= |probes| {
        return false;
      }
      i := i + 1;
    }
  }

  // ---------------------------------------------------------------------------

  class Manager {
    /** VM_CONFIG_DIR: file name to contents. */
    var configDir: map<string, MetaFile>
    /** VM_DATA_DIR: the directory vm_<id> of each id. */
    var dataDirs: map<int, DataDir>
    /** The host's rules table. */
    var rules: seq<NatRule>
    /** Firecracker launches not yet killed by pkill, by the id in their socket path. */
    var hypervisors: multiset<int>

    ghost predicate Valid()
      reads this
    {
      Inv(configDir, dataDirs, rules, hypervisors)
    }

    ghost predicate InSync()
      reads this
    {
      Synced(rules, hypervisors)
    }

    /** init_directories on a host whose nat table holds only other software's rules. */
    constructor(hostRules: seq<NatRule>)
      requires forall r :: r in hostRules ==> r.Foreign?
      ensures Valid() && InSync()
      ensures configDir == map[] && dataDirs == map[] && rules == hostRules && hypervisors == multiset{}
    {
      configDir := map[];
      dataDirs := map[];
      rules := hostRules;
      hypervisors := multiset{};
      forall id
        ensures Count(hostRules, DnatRule(id)) == 0 && Count(hostRules, MasqueradeRule(id)) == 0
      {
        assert DnatRule(id) !in hostRules && MasqueradeRule(id) !in hostRules;
      }
    }

    /**
     * create_vm_config: makes the data directory, runs the type's image script (a failed
     * script raises and no vmm.json is written), moves the produced image in, and writes
     * and returns the boot document.
     */
    method CreateVmConfig(id: int, vmType: string, scriptSucceeded: bool, imageProduced: bool) returns (r: Result<Json, string>)
      modifies this
      ensures configDir == old(configDir) && rules == old(rules) && hypervisors == old(hypervisors)
      ensures dataDirs == old(dataDirs)[id := DirAfterCreate(old(dataDirs), id, vmType, scriptSucceeded, imageProduced)]
      ensures if ImageFileName(id, vmType).Some? && !scriptSucceeded then r.Failure? else r == Success(VmmDocument(id, vmType))
      ensures old(Valid()) ==> Valid()
      ensures old(InSync()) ==> InSync()
    {
      ghost var wasValid := Valid();
      var before := if id in dataDirs then dataDirs[id] else EmptyDir;
      var image := ImageFileName(id, vmType);
      if image.Some? && !scriptSucceeded {
        dataDirs := dataDirs[id := before];
        if wasValid { CreateKeepsInv(old(configDir), old(dataDirs), rules, hypervisors, id, before); }
        return Failure("CalledProcessError");
      }
      var images := if image.Some? && imageProduced then before.images + {image.value} else before.images;
      var doc := VmmDocument(id, vmType);
      var after := before.(config := Some(doc), images := images);
      dataDirs := dataDirs[id := after];
      if wasValid { CreateKeepsInv(old(configDir), old(dataDirs), rules, hypervisors, id, after); }
      return Success(doc);
    }

    /**
     * start_vm: writes start-vm.sh (raising when the data directory is missing) and launches
     * the hypervisor with its output in vm.log. It then adds each of the two rules if absent;
     * `dnatAdded` and `masqueradeAdded` are the outcomes of the `iptables -A` commands, and a
     * failing one raises with the hypervisor already launched and no record written. Otherwise
     * it waits for the guest's ping and writes the running record, whichever way the wait ended.
     */
    method StartVm(id: int, output: string, probes: seq<bool>, dnatAdded: bool, masqueradeAdded: bool) returns (r: Result<Json, string>)
      modifies this
      ensures id !in old(dataDirs) ==>
        r.Failure? && configDir == old(configDir) && dataDirs == old(dataDirs)
        && rules == old(rules) && hypervisors == old(hypervisors)
      ensures id in old(dataDirs) ==>
        dataDirs == old(dataDirs)[id := old(dataDirs)[id].(startScript := true, log := Some(output))]
        && hypervisors == old(hypervisors) + multiset{id}
        && rules == AttachWith(old(rules), id, dnatAdded, masqueradeAdded)
        && configDir == ConfigAfterStartWith(old(configDir), old(rules), id, dnatAdded, masqueradeAdded)
        && (if AttachRaises(old(rules), id, dnatAdded, masqueradeAdded) then r == Failure("CalledProcessError")
            else match VmTypeOf(old(configDir), id)
              case Failure(e) => r == Failure(e)
              case Success(t) => r == Success(RunningRecord(id, t)))
      ensures old(Valid()) ==> Valid()
      ensures old(InSync()) && !AttachRaises(old(rules), id, dnatAdded, masqueradeAdded) ==> InSync()
    {
      ghost var wasValid, wasSynced := Valid(), InSync();
      if id !in dataDirs {
        return Failure("FileNotFoundError");
      }
      dataDirs := dataDirs[id := dataDirs[id].(startScript := true, log := Some(output))];
      hypervisors := hypervisors + multiset{id};
      var raised := AddRules(id, dnatAdded, masqueradeAdded);
      if wasValid {
        StartKeepsInv(old(configDir), old(dataDirs), old(rules), old(hypervisors), id, dataDirs[id], dnatAdded, masqueradeAdded);
      }
      if raised {
        return Failure("CalledProcessError");
      }
      AttachWithoutFailure(old(rules), id, dnatAdded, masqueradeAdded);
      if wasSynced {
        AttachKeepsSync(old(rules), old(hypervisors), id);
      }
      r := RecordStart(id, probes);
    }

    /** The end of start_vm: get_vm_type (which may raise), the ping wait and the record write. */
    method RecordStart(id: int, probes: seq<bool>) returns (r: Result<Json, string>)
      modifies this
      ensures configDir == ConfigAfterStart(old(configDir), id)
      ensures dataDirs == old(dataDirs) && rules == old(rules) && hypervisors == old(hypervisors)
      ensures match VmTypeOf(old(configDir), id)
        case Failure(e) => r == Failure(e)
        case Success(t) => r == Success(RunningRecord(id, t))
    {
      var vmType := VmTypeOf(configDir, id);
      if vmType.Failure? {
        return Failure(vmType.error);
      }
      var record := RunningRecord(id, vmType.value);
      var _ := WaitForPing(probes);
      configDir := configDir[MetaFileName(id) := Loaded(record)];
      return Success(record);
    }

    /**
     * start_vm's two `iptables -C` checks, each followed by an `iptables -A` when the rule is
     * absent; the first `-A` that fails raises and ends the steps.
     */
    method AddRules(id: int, dnatAdded: bool, masqueradeAdded: bool) returns (raised: bool)
      modifies this
      ensures rules == AttachWith(old(rules), id, dnatAdded, masqueradeAdded)
      ensures raised == AttachRaises(old(rules), id, dnatAdded, masqueradeAdded)
      ensures configDir == old(configDir) && dataDirs == old(dataDirs) && hypervisors == old(hypervisors)
    {
      if DnatRule(id) !in rules {
        if !dnatAdded {
          return true;
        }
        rules := rules + [DnatRule(id)];
      }
      if MasqueradeRule(id) !in rules {
        if !masqueradeAdded {
          return true;
        }
        rules := rules + [MasqueradeRule(id)];
      }
      return false;
    }

    /**
     * stop_vm: kills the id's hypervisors, deletes one copy of each of its two rules, and sets
     * the record's status to "stopped". It answers false only when the record cannot be updated.
     */
    method StopVm(id: int) returns (ok: bool)
      modifies this
      ensures dataDirs == old(dataDirs)
      ensures hypervisors == old(hypervisors)[id := 0]
      ensures rules == Detach(old(rules), id)
      ensures configDir == ConfigAfterStop(old(configDir), id)
      ensures ok <==> MarkStopped(old(configDir), id).Some?
      ensures old(Valid()) ==> Valid()
      ensures old(InSync()) ==> InSync()
    {
      ghost var wasValid, wasSynced := Valid(), InSync();
      hypervisors := hypervisors[id := 0];
      rules := DeleteFirst(rules, DnatRule(id));
      rules := DeleteFirst(rules, MasqueradeRule(id));
      if wasValid {
        StopKeepsInv(old(configDir), old(dataDirs), old(rules), old(hypervisors), id);
      }
      if wasSynced {
        StopKeepsSync(old(rules), old(hypervisors), id);
      }
      var name := MetaFileName(id);
      if name in configDir {
        match configDir[name]
        case Unparsable =>
          return false;
        case Loaded(v) =>
          if !v.JObj? {
            return false;
          }
          configDir := configDir[name := Loaded(JObj(v.fields["status" := JStr("stopped")]))];
      }
      return true;
    }

    /** delete_vm: stops the VM, then removes its data directory and its record; always true. */
    method DeleteVm(id: int) returns (ok: bool)
      modifies this
      ensures ok
      ensures dataDirs == old(dataDirs) - {id}
      ensures configDir == old(configDir) - {MetaFileName(id)}
      ensures rules == Detach(old(rules), id) && hypervisors == old(hypervisors)[id := 0]
      ensures old(Valid()) ==> Valid()
      ensures old(InSync()) ==> InSync()
    {
      ghost var wasValid, wasSynced := Valid(), InSync();
      var _ := StopVm(id);
      ghost var synced := InSync();
      assert wasSynced ==> synced;
      dataDirs := dataDirs - {id};
      configDir := configDir - {MetaFileName(id)};
      RemoveAfterStop(old(configDir), id);
      assert configDir == old(configDir) - {MetaFileName(id)};
      assert synced == InSync();
      if wasValid {
        DeleteKeepsInv(old(configDir), old(dataDirs), old(rules), old(hypervisors), id);
        assert Valid();
      }
      return true;
    }

    /**
     * list_vms: the records of the files named vm-*.json, in the order the directory listing
     * yields the names; a file that does not parse makes the whole listing raise (None).
     */
    method ListVms() returns (vms: Option<seq<Json>>, names: seq<string>)
      ensures vms.None? <==> exists n :: n in configDir && IsMetaFileName(n) && configDir[n].Unparsable?
      ensures vms.Some? ==>
        |vms.value| == |names|
        && (forall i, j :: 0 <= i < j < |names| ==> names[i] != names[j])
        && (forall n :: n in names <==> n in configDir && IsMetaFileName(n))
        && (forall i :: 0 <= i < |names| ==> names[i] in configDir && configDir[names[i]] == Loaded(vms.value[i]))
    {
      var remaining := configDir.Keys;
      var found: seq<Json> := [];
      names := [];
      while remaining != {}
        invariant remaining <= configDir.Keys
        invariant |found| == |names|
        invariant forall i, j :: 0 <= i < j < |names| ==> names[i] != names[j]
        invariant forall n :: n in names <==> n in configDir && IsMetaFileName(n) && n !in remaining
        invariant forall i :: 0 <= i < |names| ==> names[i] in configDir && configDir[names[i]] == Loaded(found[i])
        invariant forall n :: n in configDir && IsMetaFileName(n) && n !in remaining ==> configDir[n].Loaded?
        decreases |remaining|
      {
        var n :| n in remaining;
        remaining := remaining - {n};
        if IsMetaFileName(n) {
          match configDir[n]
          case Unparsable =>
            return None, names;
          case Loaded(v) =>
            found := found + [v];
            names := names + [n];
        }
      }
      return Some(found), names;
    }

    /** POST /stop_vm/<id>: 404 without a record, else stop_vm's outcome as 200 or 500. */
    method StopVmRoute(id: nat) returns (reply: Reply)
      modifies this
      ensures MetaFileName(id) !in old(configDir) ==>
        reply == ErrorReply(404, "VM not found")
        && configDir == old(configDir) && dataDirs == old(dataDirs) && rules == old(rules) && hypervisors == old(hypervisors)
      ensures MetaFileName(id) in old(configDir) ==>
        configDir == ConfigAfterStop(old(configDir), id) && dataDirs == old(dataDirs)
        && rules == Detach(old(rules), id) && hypervisors == old(hypervisors)[id := 0]
        && reply == if MarkStopped(old(configDir), id).Some?
          then Reply(200, JObj(map["status" := JStr("stopped"), "vm_id" := JInt(id)]))
          else ErrorReply(500, "Failed to stop VM")
      ensures old(Valid()) ==> Valid()
      ensures old(InSync()) ==> InSync()
    {
      if MetaFileName(id) !in configDir {
        return ErrorReply(404, "VM not found");
      }
      var ok := StopVm(id);
      if ok {
        reply := Reply(200, JObj(map["status" := JStr("stopped"), "vm_id" := JInt(id)]));
      } else {
        reply := ErrorReply(500, "Failed to stop VM");
      }
    }

    /** DELETE /delete_vm/<id>: 404 without a record, else delete_vm and 200. */
    method DeleteVmRoute(id: nat) returns (reply: Reply)
      modifies this
      ensures MetaFileName(id) !in old(configDir) ==>
        reply == ErrorReply(404, "VM not found")
        && configDir == old(configDir) && dataDirs == old(dataDirs) && rules == old(rules) && hypervisors == old(hypervisors)
      ensures MetaFileName(id) in old(configDir) ==>
        reply == Reply(200, JObj(map["status" := JStr("deleted"), "vm_id" := JInt(id)]))
        && configDir == old(configDir) - {MetaFileName(id)} && dataDirs == old(dataDirs) - {id}
        && rules == Detach(old(rules), id) && hypervisors == old(hypervisors)[id := 0]
      ensures old(Valid()) ==> Valid()
      ensures old(InSync()) ==> InSync()
    {
      if MetaFileName(id) !in configDir {
        return ErrorReply(404, "VM not found");
      }
      var ok := DeleteVm(id);
      if ok {
        reply := Reply(200, JObj(map["status" := JStr("deleted"), "vm_id" := JInt(id)]));
      } else {
        reply := ErrorReply(500, "Failed to delete VM");
      }
    }

    /** POST /start_vm/<id>: no existence check; the record on success, a server error on an exception. */
    method StartVmRoute(id: nat, output: string, probes: seq<bool>, dnatAdded: bool, masqueradeAdded: bool) returns (reply: Reply)
      modifies this
      ensures id !in old(dataDirs) ==>
        reply == InternalServerError
        && configDir == old(configDir) && dataDirs == old(dataDirs) && rules == old(rules) && hypervisors == old(hypervisors)
      ensures id in old(dataDirs) ==>
        configDir == ConfigAfterStartWith(old(configDir), old(rules), id, dnatAdded, masqueradeAdded)
        && rules == AttachWith(old(rules), id, dnatAdded, masqueradeAdded)
        && hypervisors == old(hypervisors) + multiset{id}
        && dataDirs == old(dataDirs)[id := old(dataDirs)[id].(startScript := true, log := Some(output))]
        && reply == if AttachRaises(old(rules), id, dnatAdded, masqueradeAdded) then InternalServerError
          else match VmTypeOf(old(configDir), id)
            case Failure(_) => InternalServerError
            case Success(t) => Reply(200, RunningRecord(id, t))
      ensures old(Valid()) ==> Valid()
      ensures old(InSync()) && !AttachRaises(old(rules), id, dnatAdded, masqueradeAdded) ==> InSync()
    {
      var r := StartVm(id, output, probes, dnatAdded, masqueradeAdded);
      match r
      case Failure(_) =>
        reply := InternalServerError;
      case Success(record) =>
        reply := Reply(200, record);
    }

    /**
     * POST /create_vm_nodejs and /create_vm_python: a falsy vm_id takes the random id
     * (drawn from 0..9999); the VM's directory and boot document are created.
     */
    method CreateVmRoute(kind: VmKind, requestId: Json, randomId: int, scriptSucceeded: bool, imageProduced: bool)
      returns (reply: Reply)
      requires 0 <= randomId < 10000
      modifies this
      ensures configDir == old(configDir) && rules == old(rules) && hypervisors == old(hypervisors)
      ensures RequestedId(requestId, randomId).None? ==> reply == InternalServerError && dataDirs == old(dataDirs)
      ensures RequestedId(requestId, randomId).Some? ==>
        var id := RequestedId(requestId, randomId).value;
        id in dataDirs
        && (forall j :: j in old(dataDirs) && j != id ==> j in dataDirs && dataDirs[j] == old(dataDirs)[j])
        && dataDirs.Keys == old(dataDirs).Keys + {id}
        && (if scriptSucceeded
            then reply == CreatedReply(id, kind) && dataDirs[id].config == Some(VmmDocument(id, kind.TypeName()))
            else reply == InternalServerError)
      ensures RequestedId(requestId, randomId).Some? ==>
        var id := RequestedId(requestId, randomId).value;
        dataDirs == old(dataDirs)[id := DirAfterCreate(old(dataDirs), id, kind.TypeName(), scriptSucceeded, imageProduced)]
      ensures old(Valid()) ==> Valid()
      ensures old(InSync()) ==> InSync()
    {
      var id := RequestedId(requestId, randomId);
      if id.None? {
        return InternalServerError;
      }
      var config := CreateVmConfig(id.value, kind.TypeName(), scriptSucceeded, imageProduced);
      match config
      case Failure(_) =>
        reply := InternalServerError;
      case Success(_) =>
        reply := CreatedReply(id.value, kind);
    }

    /** GET /vm_logs/<id>: 404 without a vm.log, else the cleaned lines. */
    method VmLogsRoute(id: nat) returns (reply: Reply)
      ensures id !in dataDirs || dataDirs[id].log.None? ==> reply == ErrorReply(404, "VM logs not found")
      ensures id in dataDirs && dataDirs[id].log.Some? ==>
        reply == Reply(200, LogsBody(id, dataDirs[id].log.value))
    {
      if id !in dataDirs || dataDirs[id].log.None? {
        return ErrorReply(404, "VM logs not found");
      }
      return Reply(200, LogsBody(id, dataDirs[id].log.value));
    }
  }

  /** A fresh manager after creating python VM 5: its data directory and nothing else. */
  method CreatedVm() returns (m: Manager)
    ensures fresh(m)
    ensures m.configDir == map[] && m.rules == [] && m.hypervisors == multiset{}
    ensures m.dataDirs == map[5 := DirAfterCreate(map[], 5, "python", true, true)]
    ensures m.Valid() && m.InSync()
  {
    m := new Manager([]);
    var reply := m.CreateVmRoute(Python, JInt(5), 42, true, true);
    assert reply == CreatedReply(5, Python);
  }

  /** A fresh manager after creating python VM 5 and starting it. */
  method StartedVm(output: string, probes: seq<bool>) returns (m: Manager)
    ensures fresh(m)
    ensures m.configDir == map[MetaFileName(5) := Loaded(RunningRecord(5, JNull))]
    ensures m.rules == Attach([], 5) && m.hypervisors == multiset{5} && m.dataDirs.Keys == {5}
    ensures m.Valid() && m.InSync()
  {
    m := CreatedVm();
    var reply := m.StartVmRoute(5, output, probes, true, true);
    assert reply == Reply(200, RunningRecord(5, JNull));
  }

  /**
   * A start of a fresh VM 5 whose DNAT add fails: a server error, the hypervisor left
   * launched and not killed, and neither a rule nor a record written.
   */
  method FailedStart(output: string, probes: seq<bool>) returns (m: Manager)
    ensures fresh(m)
    ensures m.configDir == map[] && m.rules == [] && m.hypervisors == multiset{5}
    ensures m.Valid() && !m.InSync()
  {
    m := CreatedVm();
    var reply := m.StartVmRoute(5, output, probes, false, true);
    assert reply == InternalServerError;
    FailedStartOrphansHypervisor([], multiset{}, 5, true);
  }

  /** A fresh manager after creating, starting and stopping VM 5. */
  method StoppedVm(output: string, probes: seq<bool>) returns (m: Manager)
    ensures fresh(m)
    ensures m.configDir == ConfigAfterStop(map[MetaFileName(5) := Loaded(RunningRecord(5, JNull))], 5)
    ensures m.dataDirs.Keys == {5}
    ensures m.rules == [] && m.hypervisors == multiset{}
    ensures m.Valid() && m.InSync()
  {
    m := StartedVm(output, probes);
    assert IsRunning(m.configDir[MetaFileName(5)]);
    DetachAfterAttach([], 5);
    assert multiset{5}[5 := 0] == multiset{};
    var reply := m.StopVmRoute(5);
    assert reply.code == 200;
  }

  /**
   * One VM's life through the routes: create, start, stop, then delete twice. The manager
   * ends as it began, with no record, no data directory, no rule and no hypervisor.
   */
  method Lifecycle(output: string, probes: seq<bool>) returns (m: Manager)
    ensures fresh(m)
    ensures m.configDir == map[] && m.dataDirs == map[] && m.rules == [] && m.hypervisors == multiset{}
    ensures m.Valid() && m.InSync()
  {
    m := StoppedVm(output, probes);
    RemoveAfterStop(map[MetaFileName(5) := Loaded(RunningRecord(5, JNull))], 5);
    var first, second := DeleteRouteTwice(m, 5);
  }

  /** Deleting through the route twice: the first call answers 200, the second 404. */
  method DeleteRouteTwice(m: Manager, id: nat) returns (first: Reply, second: Reply)
    requires MetaFileName(id) in m.configDir
    modifies m
    ensures first.code == 200 && second == ErrorReply(404, "VM not found")
    ensures MetaFileName(id) !in m.configDir && id !in m.dataDirs
    ensures m.configDir == old(m.configDir) - {MetaFileName(id)} && m.dataDirs == old(m.dataDirs) - {id}
    ensures m.rules == Detach(old(m.rules), id) && m.hypervisors == old(m.hypervisors)[id := 0]
    ensures old(m.Valid()) ==> m.Valid()
    ensures old(m.InSync()) ==> m.InSync()
  {
    first := m.DeleteVmRoute(id);
    assert MetaFileName(id) !in m.configDir;
    second := m.DeleteVmRoute(id);
  }
}
