/**
 * The Firecracker boot document (vmm.json) that create_vm_config writes into a
 * VM's data directory. Python's None is JSON null and is kept, since json.dump
 * writes those keys too.
 */
module VmConfig {
  import opened Wrappers
  import opened Text
  import opened Json
  import opened VmIdentity

  const KernelImagePath := BaseImageDir + "/vmlinux-6.1.128"
  const BootArgs := "console=ttyS0 reboot=k panic=1 pci=off"

  /** The image the per-type build script leaves behind, or None for a type without a script. */
  function ImageFileName(id: int, vmType: string): Option<string> {
    if vmType == "nodejs" then Some("ubuntu-24.04-nodejs_" + IntToString(id) + ".ext4")
    else if vmType == "python" then Some("ubuntu-24.04-python3_" + IntToString(id) + ".ext4")
    else None
  }

  /** `final_image_path`: the image's place inside the VM's data directory. */
  function ImagePath(id: int, vmType: string): Option<string> {
    match ImageFileName(id, vmType)
    case None => None
    case Some(name) => Some(VmDirectory(id) + "/" + name)
  }

  function BootSource(): Json {
    JObj(map["kernel_image_path" := JStr(KernelImagePath), "boot_args" := JStr(BootArgs)])
  }

  function RootDrive(pathOnHost: Option<string>): Json {
    JObj(map[
      "drive_id" := JStr("rootfs"),
      "path_on_host" := (match pathOnHost case None => JNull case Some(p) => JStr(p)),
      "is_root_device" := JBool(true),
      "is_read_only" := JBool(false),
      "io_engine" := JStr("Sync"),
      "rate_limiter" := JNull,
      "socket" := JNull,
      "cache_type" := JStr("Unsafe")])
  }

  function NetworkInterface(id: int): Json {
    JObj(map[
      "iface_id" := JStr("eth0"),
      "guest_mac" := JStr(GuestMac(id)),
      "host_dev_name" := JStr("tap0"),
      "rx_rate_limiter" := JNull,
      "tx_rate_limiter" := JNull])
  }

  function MachineConfig(): Json {
    JObj(map[
      "vcpu_count" := JInt(2),
      "mem_size_mib" := JInt(1024),
      "smt" := JBool(false),
      "track_dirty_pages" := JBool(false)])
  }

  /** The whole document for a VM id and type. */
  function VmmDocument(id: int, vmType: string): Json {
    JObj(map[
      "boot-source" := BootSource(),
      "drives" := JArr([RootDrive(ImagePath(id, vmType))]),
      "network-interfaces" := JArr([NetworkInterface(id)]),
      "machine-config" := MachineConfig(),
      "vsock" := JNull,
      "logger" := JNull,
      "metrics" := JNull,
      "mmds-config" := JNull,
      "entropy" := JNull,
      "balloon" := JNull])
  }

  /** The drive entry of a document: its one root drive. */
  function DrivePath(doc: Json): Json {
    if doc.JObj? && "drives" in doc.fields && doc.fields["drives"].JArr?
      && |doc.fields["drives"].items| == 1 && doc.fields["drives"].items[0].JObj?
      && "path_on_host" in doc.fields["drives"].items[0].fields
    then doc.fields["drives"].items[0].fields["path_on_host"]
    else JNull
  }

  function DocumentMac(doc: Json): Json {
    if doc.JObj? && "network-interfaces" in doc.fields && doc.fields["network-interfaces"].JArr?
      && |doc.fields["network-interfaces"].items| == 1 && doc.fields["network-interfaces"].items[0].JObj?
      && "guest_mac" in doc.fields["network-interfaces"].items[0].fields
    then doc.fields["network-interfaces"].items[0].fields["guest_mac"]
    else JNull
  }

  // ---------------------------------------------------------------------------

  /** The root drive's path is the image path, or null for a type without an image. */
  lemma DrivePathOf(id: int, vmType: string)
    ensures DrivePath(VmmDocument(id, vmType)) == (match ImagePath(id, vmType) case None => JNull case Some(p) => JStr(p))
  {
    var doc := VmmDocument(id, vmType);
    assert doc.fields["drives"].items[0] == RootDrive(ImagePath(id, vmType));
  }

  lemma DocumentMacOf(id: int, vmType: string)
    ensures DocumentMac(VmmDocument(id, vmType)) == JStr(GuestMac(id))
  {
    var doc := VmmDocument(id, vmType);
    assert doc.fields["network-interfaces"].items[0] == NetworkInterface(id);
  }

  /** A typed image lives in the VM's own directory and its name ends in the id. */
  lemma ImagePathShape(id: int, vmType: string)
    ensures ImagePath(id, vmType).Some? <==> vmType == "nodejs" || vmType == "python"
    ensures ImagePath(id, vmType).Some? ==>
      StartsWith(ImagePath(id, vmType).value, VmDirectory(id) + "/")
      && EndsWith(ImagePath(id, vmType).value, IntToString(id) + ".ext4")
  {
    match ImageFileName(id, vmType)
    case None =>
    case Some(name) =>
      var p := VmDirectory(id) + "/" + name;
      assert p[..|VmDirectory(id) + "/"|] == VmDirectory(id) + "/";
      var suffix := IntToString(id) + ".ext4";
      assert p[|p| - |suffix|..] == suffix;
  }

  /** The document carries the id's MAC, and the typed images live in the VM's own directory. */
  lemma DocumentContents(id: int, vmType: string)
    ensures DocumentMac(VmmDocument(id, vmType)) == JStr(GuestMac(id))
    ensures vmType == "nodejs" || vmType == "python" <==> DrivePath(VmmDocument(id, vmType)).JStr?
    ensures DrivePath(VmmDocument(id, vmType)).JStr? ==>
      StartsWith(DrivePath(VmmDocument(id, vmType)).s, VmDirectory(id) + "/")
      && EndsWith(DrivePath(VmmDocument(id, vmType)).s, IntToString(id) + ".ext4")
  {
    DocumentMacOf(id, vmType);
    DrivePathOf(id, vmType);
    ImagePathShape(id, vmType);
  }

  /** Two ids with the same typed image path are the same id. */
  lemma ImagePathDeterminesId(a: int, b: int, vmType: string)
    requires vmType == "nodejs" || vmType == "python"
    requires ImagePath(a, vmType) == ImagePath(b, vmType)
    ensures a == b
  {
    var pa, pb := ImagePath(a, vmType).value, ImagePath(b, vmType).value;
    var sa, sb := IntToString(a), IntToString(b);
    var k := |VmDataDir + "/vm_"|;
    assert pa == VmDataDir + "/vm_" + sa + "/" + ImageFileName(a, vmType).value;
    assert pb == VmDataDir + "/vm_" + sb + "/" + ImageFileName(b, vmType).value;
    assert |sa| == |sb|;
    assert pa[k..k + |sa|] == sa;
    assert pb[k..k + |sb|] == sb;
    IntToStringInjective(a, b);
  }

  /**
   * A generic document (no image) depends on the id only through the MAC, so ids that
   * agree modulo 256 get identical documents.
   */
  lemma GenericDocumentsCoincide(a: int, b: int, vmType: string)
    requires vmType != "nodejs" && vmType != "python"
    ensures VmmDocument(a, vmType) == VmmDocument(b, vmType) <==> a % 256 == b % 256
  {
    GuestMacIff(a, b);
    if VmmDocument(a, vmType) == VmmDocument(b, vmType) {
      DocumentContents(a, vmType);
      DocumentContents(b, vmType);
    }
  }

  /** A typed document names its image by id, so distinct ids always get distinct documents. */
  lemma TypedDocumentDeterminesId(a: int, b: int, vmType: string)
    requires vmType == "nodejs" || vmType == "python"
    ensures VmmDocument(a, vmType) == VmmDocument(b, vmType) <==> a == b
  {
    if VmmDocument(a, vmType) == VmmDocument(b, vmType) {
      DrivePathOf(a, vmType);
      DrivePathOf(b, vmType);
      ImagePathShape(a, vmType);
      ImagePathShape(b, vmType);
      ImagePathDeterminesId(a, b, vmType);
    }
  }
}
