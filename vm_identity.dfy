/**
 * Everything the current VM manager derives from a VM id: guest MAC, guest IP,
 * forwarded SSH port, HTTP URL, control socket, and the file and directory names
 * that hold the VM's metadata and data.
 */
module VmIdentity {
  import opened Text

  const VmConfigDir := "./vm_configs"
  const VmDataDir := "./vm-data"
  const BaseImageDir := "./base_images"
  const HttpPort := 80

  /** `"AA:FC:00:00:00:" + format(vm_id % 256, '02x')` (Python's % is never negative here). */
  function GuestMac(id: int): string {
    "AA:FC:00:00:00:" + HexByte(id % 256)
  }

  function Ip(id: int): string {
    "172.16.0." + IntToString(id)
  }

  /** `int(f"2200{vm_id}")` for ids 1..9, `220 + vm_id` for every other id. */
  function SshPort(id: int): int {
    if 1 <= id <= 9 then ParseNat("2200" + NatToString(id)) else 220 + id
  }

  function HttpUrl(id: int): string {
    "http://" + Ip(id) + ":" + NatToString(HttpPort)
  }

  function SocketPath(id: int): string {
    "/tmp/firecracker-" + IntToString(id) + ".socket"
  }

  /** `os.path.join(VM_DATA_DIR, f"vm_{vm_id}")`. */
  function VmDirectory(id: int): string {
    VmDataDir + "/vm_" + IntToString(id)
  }

  /** Name of the metadata file under VM_CONFIG_DIR. */
  function MetaFileName(id: int): string {
    "vm-" + IntToString(id) + ".json"
  }

  /** The filter list_vms applies to file names. */
  predicate IsMetaFileName(name: string) {
    StartsWith(name, "vm-") && EndsWith(name, ".json")
  }

  // ---------------------------------------------------------------------------

  /** The two digits are the low byte of the id, so ids agree on their MAC iff they agree modulo 256. */
  lemma GuestMacIff(a: int, b: int)
    ensures GuestMac(a) == GuestMac(b) <==> a % 256 == b % 256
  {
    var p := "AA:FC:00:00:00:";
    if GuestMac(a) == GuestMac(b) {
      assert HexByte(a % 256) == GuestMac(a)[|p|..];
      assert HexByte(b % 256) == GuestMac(b)[|p|..];
      HexByteRoundTrip(a % 256);
      HexByteRoundTrip(b % 256);
    }
  }

  lemma SshPortFormula(id: int)
    ensures SshPort(id) == if 1 <= id <= 9 then 22000 + id else 220 + id
  {
    if 1 <= id <= 9 {
      var s := "2200" + NatToString(id);
      assert NatToString(id) == [DigitChar(id)];
      assert s[..4] == "2200" && s[..3] == "220" && s[..2] == "22" && s[..1] == "2";
      assert s[..|s| - 1] == "2200";
      assert ParseNat("2200") == 2200 by {
        assert "2200"[..3] == "220" && "220"[..2] == "22" && "22"[..1] == "2" && "2"[..0] == "";
      }
    }
  }

  /** Over the range of randomly drawn ids, 0..9999, no two ids share an SSH port. */
  lemma SshPortInjective(a: int, b: int)
    requires 0 <= a < 10000 && 0 <= b < 10000
    ensures SshPort(a) == SshPort(b) <==> a == b
  {
    SshPortFormula(a);
    SshPortFormula(b);
  }

  /** Ports 22001..22009 for ids 1..9, 220..10219 for the other ids below 10000. */
  lemma SshPortRange(id: int)
    requires 0 <= id < 10000
    ensures 1 <= id <= 9 ==> 22001 <= SshPort(id) <= 22009
    ensures !(1 <= id <= 9) ==> 220 <= SshPort(id) <= 10219
  {
    SshPortFormula(id);
  }

  /** Above the random range the port stops being injective: id 21781 gets the port of id 1. */
  lemma SshPortCollision()
    ensures SshPort(1) == SshPort(21781) == 22001
  {
    SshPortFormula(1);
    SshPortFormula(21781);
  }

  lemma IpInjective(a: int, b: int)
    ensures Ip(a) == Ip(b) <==> a == b
  {
    var p := "172.16.0.";
    if Ip(a) == Ip(b) {
      assert IntToString(a) == Ip(a)[|p|..];
      assert IntToString(b) == Ip(b)[|p|..];
      IntToStringInjective(a, b);
    }
  }

  lemma HttpUrlShape(id: int)
    ensures HttpUrl(id) == "http://172.16.0." + IntToString(id) + ":80"
  {
    assert NatToString(80) == "80" by {
      assert NatToString(8) == "8";
    }
  }

  lemma SocketPathInjective(a: int, b: int)
    ensures SocketPath(a) == SocketPath(b) <==> a == b
  {
    var p := "/tmp/firecracker-";
    if SocketPath(a) == SocketPath(b) {
      var sa := SocketPath(a);
      assert |IntToString(a)| == |IntToString(b)|;
      assert IntToString(a) == sa[|p|..|p| + |IntToString(a)|];
      assert IntToString(b) == SocketPath(b)[|p|..|p| + |IntToString(b)|];
      IntToStringInjective(a, b);
    }
  }

  /** Every VM's metadata file passes list_vms' filter, and distinct ids have distinct files. */
  lemma MetaFileNameListed(a: int, b: int)
    ensures IsMetaFileName(MetaFileName(a))
    ensures MetaFileName(a) == MetaFileName(b) <==> a == b
  {
    var n := MetaFileName(a);
    assert n[..3] == "vm-";
    assert n[|n| - 5..] == ".json";
    if MetaFileName(a) == MetaFileName(b) {
      assert |IntToString(a)| == |IntToString(b)|;
      assert IntToString(a) == n[3..3 + |IntToString(a)|];
      assert IntToString(b) == MetaFileName(b)[3..3 + |IntToString(b)|];
      IntToStringInjective(a, b);
    }
  }
}
