/**
 * The first prototype of the VM manager: a directory of records vm_<id>.json, each
 * holding the VM's id, status, boot configuration and type, and the Firecracker API
 * requests the routes issue (kept as a log of calls).
 */
module VmStoreV1 {
  import opened Wrappers
  import opened Text
  import opened Json

  const FirecrackerSocket := "/tmp/firecracker.sock"
  const KernelPath := "./../vmlinux-6.1.128"
  const NodeJsImage := "./ubuntu-24.04-nodejs.ext4"
  const PythonImage := "./ubuntu-24.04-python.ext4"

  /** BASE_IMAGES: base OS to image path. */
  const BaseImages: map<string, string> := map["ubuntu" := "./ubuntu-rootfs.img.gz", "alpine" := "./alpine-rootfs.img.gz"]

  /** A vm_id as a create request carries it: a JSON integer or string. */
  datatype IdValue = IntId(n: int) | StrId(s: string) {
    /** `str(vm_id)`, as the f-strings render it. */
    function Text(): string {
      match this
      case IntId(n) => IntToString(n)
      case StrId(s) => s
    }
    function ToJson(): Json {
      match this
      case IntId(n) => JInt(n)
      case StrId(s) => JStr(s)
    }
    predicate Truthy() {
      match this
      case IntId(n) => n != 0
      case StrId(s) => s != []
    }
  }

  /** The three create routes. */
  datatype Flavor = General | NodeJs | Python {
    function TypeName(): string {
      match this
      case General => "general"
      case NodeJs => "nodejs"
      case Python => "python"
    }
  }

  /** A stored record, exactly the four keys save_vm_config writes. */
  datatype Record = Record(vmId: IdValue, status: string, config: Json, vmType: string)

  /**
   * How the blocking `subprocess.run` of the hypervisor ends: it exits, it never exits, or
   * it raises because the binary is missing or cannot be executed.
   */
  datatype LaunchOutcome = Returns | Hangs | Raises

  /** A request sent to the hypervisor: its launch, or a PUT on the microVM's API. */
  datatype ApiCall =
    | LaunchHypervisor(socket: string)
    | PutBootSource(vmId: string, config: Json)
    | PutAction(vmId: string, action: string)

  function FileName(id: IdValue): string {
    "vm_" + id.Text() + ".json"
  }

  /**
   * Whether `open(..., 'w')` can create the id's file: a '/' in the text names a
   * subdirectory that does not exist, and a NUL is refused by the system call.
   */
  predicate Writable(id: IdValue) {
    '/' !in id.Text() && '\0' !in id.Text()
  }

  /** The routes with an integer id in their URL always write a file they can open. */
  lemma IntIdWritable(n: int)
    ensures Writable(IntId(n))
  {
    var t := IntToString(n);
    var digits := NatToString(if n < 0 then -n else n);
    assert t == (if n < 0 then "-" else "") + digits;
    forall i | 0 <= i < |t|
      ensures t[i] != '/' && t[i] != '\0'
    {
      if n < 0 && i > 0 {
        assert t[i] == digits[i - 1];
      }
    }
  }

  /** Which names list_vms reads. */
  predicate IsRecordFileName(name: string) {
    StartsWith(name, "vm_") && EndsWith(name, ".json")
  }

  /** The boot configuration a create route builds for a VM. */
  function ProtoConfig(idText: string, flavor: Flavor): Json {
    var path := match flavor
      case General => "./ubuntu-rootfs-" + idText + ".img.gz"
      case NodeJs => NodeJsImage
      case Python => PythonImage;
    JObj(map[
      "boot-source" := JObj(map[
        "kernel_image_path" := JStr(KernelPath),
        "boot_args" := JStr("console=ttyS0 reboot=k panic=1 pci=off")]),
      "drives" := JArr([JObj(map[
        "drive_id" := JStr("rootfs" + idText),
        "path_on_host" := JStr(path),
        "is_root_device" := JBool(true),
        "is_read_only" := JBool(false)])]),
      "network-interfaces" := JArr([JObj(map[
        "iface_id" := JStr("eth0"),
        "host_dev_name" := JStr("tap0-" + idText)])])])
  }

  /** get_vm_config: the record stored for an id, or None. */
  function GetVmConfig(files: map<string, Record>, id: IdValue): (r: Option<Record>)
    ensures r.Some? <==> FileName(id) in files
    ensures r.Some? ==> r.value == files[FileName(id)]
  {
    if FileName(id) in files then Some(files[FileName(id)]) else None
  }

  /** The answer of a create route that succeeded. */
  function CreatedReply(id: IdValue, flavor: Flavor): Reply {
    Reply(200, JObj(if flavor == General then map["status" := JStr("created"), "vm_id" := id.ToJson()]
      else map["status" := JStr("created"), "vm_id" := id.ToJson(), "type" := JStr(flavor.TypeName())]))
  }

  /**
   * POST /create_image: both keys must be present (null counts as missing), the OS must be a
   * key of BASE_IMAGES, and then the reply names the OS's image; the runtime is not checked.
   * Looking up a list or an object raises (unhashable), which Flask answers with a 500.
   */
  function CreateImage(os: Json, runtime: Json): (reply: Reply)
    ensures os.JNull? || runtime.JNull? ==> reply == ErrorReply(400, "os and runtime must be specified")
    ensures reply.code == 201 <==> !runtime.JNull? && os.JStr? && os.s in BaseImages
    ensures reply.code == 201 ==> reply.body == JObj(map["message" := JStr("Image created at " + BaseImages[os.s])])
    ensures reply.code == 500 <==> !runtime.JNull? && (os.JArr? || os.JObj?)
    ensures !os.JNull? && !runtime.JNull? && !os.JArr? && !os.JObj? && !(os.JStr? && os.s in BaseImages) ==>
      reply == ErrorReply(400, "Unsupported base OS")
  {
    if os.JNull? || runtime.JNull? then ErrorReply(400, "os and runtime must be specified")
    else if os.JArr? || os.JObj? then InternalServerError
    else if !(os.JStr? && os.s in BaseImages) then ErrorReply(400, "Unsupported base OS")
    else Reply(201, JObj(map["message" := JStr("Image created at " + BaseImages[os.s])]))
  }

  // ---------------------------------------------------------------------------

  /** The record's file name is derived from its text, so different texts have different files. */
  lemma FileNameListed(a: IdValue, b: IdValue)
    ensures IsRecordFileName(FileName(a))
    ensures FileName(a) == FileName(b) <==> a.Text() == b.Text()
  {
    var n := FileName(a);
    assert n[..3] == "vm_";
    assert n[|n| - 5..] == ".json";
    if FileName(a) == FileName(b) {
      assert a.Text() == n[3..|n| - 5];
      assert b.Text() == FileName(b)[3..|FileName(b)| - 5];
    }
  }

  /** get_vm_config answers the last record saved under the id's file, and saving leaves other ids alone. */
  lemma SaveThenGet(files: map<string, Record>, id: IdValue, r: Record, other: IdValue)
    ensures GetVmConfig(files[FileName(id) := r], id) == Some(r)
    ensures other.Text() != id.Text() ==> GetVmConfig(files[FileName(id) := r], other) == GetVmConfig(files, other)
  {
    FileNameListed(other, id);
  }

  /**
   * The generic configuration names the id in its drive id, image path and tap device; the
   * nodejs and python ones use the shared image, so only the drive id and device name differ.
   */
  lemma ConfigShape(a: string, b: string, flavor: Flavor)
    ensures ProtoConfig(a, flavor) == ProtoConfig(b, flavor) <==> a == b
    ensures flavor != General ==>
      ProtoConfig(a, flavor).fields["drives"].items[0].fields["path_on_host"]
      == ProtoConfig(b, flavor).fields["drives"].items[0].fields["path_on_host"]
  {
    if ProtoConfig(a, flavor) == ProtoConfig(b, flavor) {
      var da := ProtoConfig(a, flavor).fields["drives"].items[0].fields["drive_id"];
      var db := ProtoConfig(b, flavor).fields["drives"].items[0].fields["drive_id"];
      assert da == db;
      assert a == da.s[6..] && b == db.s[6..];
    }
  }

  // ---------------------------------------------------------------------------

  class Store {
    /** VM_CONFIG_DIR: file name to record. */
    var files: map<string, Record>
    /** Every hypervisor launch and API request, in the order issued. */
    var issued: seq<ApiCall>

    /** Every record lies in its own id's file and was written by a create or a stop. */
    ghost predicate Valid()
      reads this
    {
      forall name :: name in files ==>
        FileName(files[name].vmId) == name
        && files[name].status in {"running", "stopped"}
        && files[name].vmType in {"general", "nodejs", "python"}
    }

    constructor()
      ensures Valid() && files == map[] && issued == []
    {
      files := map[];
      issued := [];
    }

    /**
     * POST /create_vm, /create_vm_nodejs, /create_vm_python: 400 for a falsy or missing vm_id;
     * otherwise launch the hypervisor and wait for it to exit (`launch` says how that ends;
     * while it runs the request gets no reply, None, and a launch that raises is a 500), then
     * PUT the boot source and the Start action and save the record as running. A file that
     * cannot be opened raises after the two PUTs, which Flask also answers with a 500.
     */
    method CreateVm(flavor: Flavor, requestId: Option<IdValue>, launch: LaunchOutcome) returns (reply: Option<Reply>)
      modifies this
      ensures requestId.None? || !requestId.value.Truthy() ==>
        reply == Some(ErrorReply(400, "Missing vm_id")) && files == old(files) && issued == old(issued)
      ensures requestId.Some? && requestId.value.Truthy() && launch != Returns ==>
        reply == (if launch == Hangs then None else Some(InternalServerError))
        && files == old(files) && issued == old(issued) + [LaunchHypervisor(FirecrackerSocket)]
      ensures requestId.Some? && requestId.value.Truthy() && launch == Returns ==>
        var id := requestId.value;
        var config := ProtoConfig(id.Text(), flavor);
        issued == old(issued) + [LaunchHypervisor(FirecrackerSocket), PutBootSource(id.Text(), config), PutAction(id.Text(), "Start")]
        && if Writable(id) then
             reply == Some(CreatedReply(id, flavor))
             && files == old(files)[FileName(id) := Record(id, "running", config, flavor.TypeName())]
             && GetVmConfig(files, id) == Some(Record(id, "running", config, flavor.TypeName()))
           else
             reply == Some(InternalServerError) && files == old(files)
      ensures old(Valid()) ==> Valid()
    {
      if requestId.None? || !requestId.value.Truthy() {
        return Some(ErrorReply(400, "Missing vm_id"));
      }
      var id := requestId.value;
      var config := ProtoConfig(id.Text(), flavor);
      issued := issued + [LaunchHypervisor(FirecrackerSocket)];
      if launch == Hangs {
        return None;
      } else if launch == Raises {
        return Some(InternalServerError);
      }
      issued := issued + [PutBootSource(id.Text(), config)];
      issued := issued + [PutAction(id.Text(), "Start")];
      var saved := SaveVmConfig(id, "running", config, flavor.TypeName());
      if !saved {
        return Some(InternalServerError);
      }
      return Some(CreatedReply(id, flavor));
    }

    /**
     * save_vm_config: overwrites the id's file with the four-key record, or raises (`saved`
     * is false) and changes nothing when the file cannot be opened.
     */
    method SaveVmConfig(id: IdValue, status: string, config: Json, vmType: string) returns (saved: bool)
      modifies this
      ensures saved == Writable(id)
      ensures files == if saved then old(files)[FileName(id) := Record(id, status, config, vmType)] else old(files)
      ensures issued == old(issued)
      ensures old(Valid()) && status in {"running", "stopped"} && vmType in {"general", "nodejs", "python"} ==> Valid()
    {
      if !Writable(id) {
        return false;
      }
      files := files[FileName(id) := Record(id, status, config, vmType)];
      return true;
    }

    /**
     * POST /stop_vm/<id>: 404 without a record; otherwise PUT the Stop action and save the
     * record as stopped, with its configuration and type kept and the URL's id as vm_id.
     */
    method StopVm(id: nat) returns (reply: Reply)
      modifies this
      ensures GetVmConfig(old(files), IntId(id)).None? ==>
        reply == ErrorReply(404, "VM not found") && files == old(files) && issued == old(issued)
      ensures GetVmConfig(old(files), IntId(id)).Some? ==>
        var before := GetVmConfig(old(files), IntId(id)).value;
        reply == Reply(200, JObj(map["status" := JStr("stopped"), "vm_id" := JInt(id)]))
        && files == old(files)[FileName(IntId(id)) := Record(IntId(id), "stopped", before.config, before.vmType)]
        && issued == old(issued) + [PutAction(IntToString(id), "Stop")]
      ensures old(Valid()) ==> Valid()
    {
      var found := GetVmConfig(files, IntId(id));
      if found.None? {
        return ErrorReply(404, "VM not found");
      }
      issued := issued + [PutAction(IntToString(id), "Stop")];
      IntIdWritable(id);
      var _ := SaveVmConfig(IntId(id), "stopped", found.value.config, found.value.vmType);
      return Reply(200, JObj(map["status" := JStr("stopped"), "vm_id" := JInt(id)]));
    }

    /**
     * DELETE /delete_vm/<id>: 404 without a record; otherwise PUT Stop only for a running
     * VM and remove the file, after which the id has no record.
     */
    method DeleteVm(id: nat) returns (reply: Reply)
      modifies this
      ensures GetVmConfig(old(files), IntId(id)).None? ==>
        reply == ErrorReply(404, "VM not found") && files == old(files) && issued == old(issued)
      ensures GetVmConfig(old(files), IntId(id)).Some? ==>
        reply == Reply(200, JObj(map["status" := JStr("deleted"), "vm_id" := JInt(id)]))
        && files == old(files) - {FileName(IntId(id))}
        && issued == old(issued) + (if GetVmConfig(old(files), IntId(id)).value.status == "running"
             then [PutAction(IntToString(id), "Stop")] else [])
      ensures GetVmConfig(files, IntId(id)).None?
      ensures old(Valid()) ==> Valid()
    {
      var found := GetVmConfig(files, IntId(id));
      if found.None? {
        return ErrorReply(404, "VM not found");
      }
      if found.value.status == "running" {
        issued := issued + [PutAction(IntToString(id), "Stop")];
      }
      files := files - {FileName(IntId(id))};
      return Reply(200, JObj(map["status" := JStr("deleted"), "vm_id" := JInt(id)]));
    }

    /** list_vms: the records of the files named vm_*.json, in directory-listing order. */
    method ListVms() returns (vms: seq<Record>, names: seq<string>)
      ensures |vms| == |names|
      ensures forall i, j :: 0 <= i < j < |names| ==> names[i] != names[j]
      ensures forall n :: n in names <==> n in files && IsRecordFileName(n)
      ensures forall i :: 0 <= i < |names| ==> names[i] in files && files[names[i]] == vms[i]
      ensures Valid() ==> forall i :: 0 <= i < |vms| ==> GetVmConfig(files, vms[i].vmId) == Some(vms[i])
    {
      var remaining := files.Keys;
      vms, names := [], [];
      while remaining != {}
        invariant remaining <= files.Keys
        invariant |vms| == |names|
        invariant forall i, j :: 0 <= i < j < |names| ==> names[i] != names[j]
        invariant forall n :: n in names <==> n in files && IsRecordFileName(n) && n !in remaining
        invariant forall i :: 0 <= i < |names| ==> names[i] in files && files[names[i]] == vms[i]
        decreases |remaining|
      {
        var n :| n in remaining;
        remaining := remaining - {n};
        if IsRecordFileName(n) {
          vms := vms + [files[n]];
          names := names + [n];
        }
      }
    }
  }

  /** A create followed by a stop and a delete of the same integer id. */
  method CreateStopDelete()
  {
    var store := new Store();
    IntIdWritable(7);
    var created := store.CreateVm(NodeJs, Some(IntId(7)), Returns);
    assert GetVmConfig(store.files, IntId(7)) == Some(Record(IntId(7), "running", ProtoConfig("7", NodeJs), "nodejs"));
    var reply := store.StopVm(7);
    assert reply.code == 200 && store.files[FileName(IntId(7))].status == "stopped";
    reply := store.DeleteVm(7);
    assert store.issued == [LaunchHypervisor(FirecrackerSocket), PutBootSource("7", ProtoConfig("7", NodeJs)),
      PutAction("7", "Start"), PutAction("7", "Stop")];
    created := store.CreateVm(General, Some(IntId(0)), Returns);
    assert created == Some(ErrorReply(400, "Missing vm_id"));
  }

  /**
   * Creates whose record is never written: an id naming a subdirectory gets a 500 after
   * both PUTs, a launch that does not return leaves the request without a reply, and a
   * launch that raises gets a 500 before either PUT.
   */
  method UnsavedCreates()
  {
    var store := new Store();
    var id := StrId("a/b");
    assert id.Text()[1] == '/';
    var created := store.CreateVm(General, Some(id), Returns);
    assert created == Some(InternalServerError) && store.files == map[];
    assert |store.issued| == 3 && store.issued[1] == PutBootSource("a/b", ProtoConfig("a/b", General));
    created := store.CreateVm(Python, Some(IntId(3)), Hangs);
    assert created == None && store.files == map[] && |store.issued| == 4;
    created := store.CreateVm(NodeJs, Some(IntId(4)), Raises);
    assert created == Some(InternalServerError) && store.files == map[];
    assert |store.issued| == 5 && store.issued[4] == LaunchHypervisor(FirecrackerSocket);
  }
}
