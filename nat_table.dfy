/**
 * The host's iptables nat table as one ordered list of rules, and the two rules
 * the VM manager installs per VM: a PREROUTING DNAT from the VM's SSH port on
 * 127.0.0.1 to <ip>:22, and a POSTROUTING MASQUERADE for <ip>:22, both on tap0.
 */
module NatTable {
  import opened VmIdentity

  datatype NatRule =
    | Dnat(dport: int, toDestination: string)  // -A PREROUTING -p tcp -d 127.0.0.1 --dport <dport> -j DNAT --to-destination <toDestination> -i tap0
    | Masquerade(destination: string)          // -A POSTROUTING -p tcp -d <destination> --dport 22 -j MASQUERADE -o tap0
    | Foreign(spec: string)                    // a rule installed by anything else

  function DnatRule(id: int): NatRule {
    Dnat(SshPort(id), Ip(id) + ":22")
  }

  function MasqueradeRule(id: int): NatRule {
    Masquerade(Ip(id))
  }

  /** How many copies of r the table holds. */
  function Count(t: seq<NatRule>, r: NatRule): nat {
    multiset(t)[r]
  }

  /** Position of the first copy of r. */
  function FirstIndex(t: seq<NatRule>, r: NatRule): (k: nat)
    requires r in t
    ensures k < |t| && t[k] == r && r !in t[..k]
  {
    if t[0] == r then 0 else
      var k := FirstIndex(t[1..], r);
      assert t[1..][..k] == t[1..k + 1];
      k + 1
  }

  /** `iptables -C` and, only when the check fails, `iptables -A`: the rule goes to the end. */
  function AddIfAbsent(t: seq<NatRule>, r: NatRule): (u: seq<NatRule>)
    ensures t <= u && |u| <= |t| + 1
    ensures Count(u, r) == if Count(t, r) == 0 then 1 else Count(t, r)
    ensures forall x :: x != r ==> Count(u, x) == Count(t, x)
  {
    if r in t then t else t + [r]
  }

  /** `iptables -D`: removes the first copy of r; when there is none the table is left as it was. */
  function DeleteFirst(t: seq<NatRule>, r: NatRule): (u: seq<NatRule>)
    ensures r !in t ==> u == t
    ensures r in t ==> u == t[..FirstIndex(t, r)] + t[FirstIndex(t, r) + 1..]
    ensures Count(u, r) == if Count(t, r) == 0 then 0 else Count(t, r) - 1
    ensures forall x :: x != r ==> Count(u, x) == Count(t, x)
  {
    if r !in t then t
    else
      var k := FirstIndex(t, r);
      assert t == t[..k] + [r] + t[k + 1..];
      t[..k] + t[k + 1..]
  }

  /** start_vm's two check-then-add steps, DNAT first. */
  function Attach(t: seq<NatRule>, id: int): seq<NatRule> {
    AddIfAbsent(AddIfAbsent(t, DnatRule(id)), MasqueradeRule(id))
  }

  /**
   * start_vm's two check-then-add steps when an `iptables -A` can fail: `dnatAdded` and
   * `masqueradeAdded` say whether each `-A`, if it runs, succeeds. A failing `-A` raises
   * (check=True), so a failed DNAT add leaves the table as it was and skips the
   * MASQUERADE step, and a failed MASQUERADE add leaves the DNAT rule in place.
   */
  function AttachWith(t: seq<NatRule>, id: int, dnatAdded: bool, masqueradeAdded: bool): seq<NatRule> {
    if DnatRule(id) !in t && !dnatAdded then t
    else
      var u := AddIfAbsent(t, DnatRule(id));
      if MasqueradeRule(id) !in u && !masqueradeAdded then u else AddIfAbsent(u, MasqueradeRule(id))
  }

  /** Whether one of those `-A` commands runs and fails, so that start_vm raises. */
  predicate AttachRaises(t: seq<NatRule>, id: int, dnatAdded: bool, masqueradeAdded: bool) {
    (DnatRule(id) !in t && !dnatAdded)
    || (MasqueradeRule(id) !in AddIfAbsent(t, DnatRule(id)) && !masqueradeAdded)
  }

  /** stop_vm's two `iptables -D` commands, PREROUTING first. */
  function Detach(t: seq<NatRule>, id: int): seq<NatRule> {
    DeleteFirst(DeleteFirst(t, DnatRule(id)), MasqueradeRule(id))
  }

  /** The rules of distinct ids are distinct, so touching one id's rules leaves every other id's alone. */
  lemma RulesOfDistinctIds(i: int, j: int)
    requires i != j
    ensures DnatRule(i) != DnatRule(j) && MasqueradeRule(i) != MasqueradeRule(j)
  {
    IpInjective(i, j);
    var a, b := Ip(i) + ":22", Ip(j) + ":22";
    assert Ip(i) == a[..|a| - 3] && Ip(j) == b[..|b| - 3];
  }

  /**
   * After attaching, each of the id's two rules is present exactly once, provided it was
   * not present twice before; all other rules keep their counts.
   */
  lemma AttachExactlyOnce(t: seq<NatRule>, id: int)
    requires Count(t, DnatRule(id)) <= 1 && Count(t, MasqueradeRule(id)) <= 1
    ensures Count(Attach(t, id), DnatRule(id)) == 1
    ensures Count(Attach(t, id), MasqueradeRule(id)) == 1
    ensures forall r :: r != DnatRule(id) && r != MasqueradeRule(id) ==> Count(Attach(t, id), r) == Count(t, r)
    ensures forall j :: j != id ==>
      Count(Attach(t, id), DnatRule(j)) == Count(t, DnatRule(j))
      && Count(Attach(t, id), MasqueradeRule(j)) == Count(t, MasqueradeRule(j))
  {
    forall j | j != id
      ensures Count(Attach(t, id), DnatRule(j)) == Count(t, DnatRule(j))
      ensures Count(Attach(t, id), MasqueradeRule(j)) == Count(t, MasqueradeRule(j))
    {
      RulesOfDistinctIds(id, j);
    }
  }

  lemma AttachIdempotent(t: seq<NatRule>, id: int)
    ensures Attach(Attach(t, id), id) == Attach(t, id)
  {
    var u := AddIfAbsent(t, DnatRule(id));
    assert DnatRule(id) in Attach(t, id) by {
      assert Count(Attach(t, id), DnatRule(id)) >= 1;
    }
  }

  /** The table after start_vm(id) has run n times in a row. */
  function AttachTimes(t: seq<NatRule>, id: int, n: nat): seq<NatRule> {
    if n == 0 then t else Attach(AttachTimes(t, id, n - 1), id)
  }

  /** However often start_vm(id) runs, the table is as after the first run. */
  lemma {:induction false} AttachRepeatedly(t: seq<NatRule>, id: int, n: nat)
    requires n >= 1
    ensures AttachTimes(t, id, n) == Attach(t, id)
  {
    if n > 1 {
      calc {
        AttachTimes(t, id, n);
        Attach(AttachTimes(t, id, n - 1), id);
        { AttachRepeatedly(t, id, n - 1); }
        Attach(Attach(t, id), id);
        { AttachIdempotent(t, id); }
        Attach(t, id);
      }
    }
  }

  lemma DeleteFirstAfterAppend(t: seq<NatRule>, r: NatRule, u: seq<NatRule>)
    requires r !in t
    ensures DeleteFirst(t + [r] + u, r) == t + u
  {
    var s := t + [r] + u;
    assert s[|t|] == r;
    assert s[..|t|] == t && s[|t| + 1..] == u;
  }

  /** stop_vm undoes start_vm: detaching right after attaching to a table without the id's rules restores it. */
  lemma DetachAfterAttach(t: seq<NatRule>, id: int)
    requires DnatRule(id) !in t && MasqueradeRule(id) !in t
    ensures Detach(Attach(t, id), id) == t
  {
    var d, m := DnatRule(id), MasqueradeRule(id);
    assert Attach(t, id) == t + [d] + [m];
    DeleteFirstAfterAppend(t, d, [m]);
    DeleteFirstAfterAppend(t, m, []);
    assert t + [m] + [] == t + [m];
    assert t + [] == t;
  }

  /**
   * Detaching removes one copy of each of the id's rules, so an id with at most one copy
   * of each has none left; every other rule keeps its count.
   */
  lemma DetachRemoves(t: seq<NatRule>, id: int)
    requires Count(t, DnatRule(id)) <= 1 && Count(t, MasqueradeRule(id)) <= 1
    ensures DnatRule(id) !in Detach(t, id) && MasqueradeRule(id) !in Detach(t, id)
    ensures forall r :: r != DnatRule(id) && r != MasqueradeRule(id) ==> Count(Detach(t, id), r) == Count(t, r)
    ensures forall j :: j != id ==>
      Count(Detach(t, id), DnatRule(j)) == Count(t, DnatRule(j))
      && Count(Detach(t, id), MasqueradeRule(j)) == Count(t, MasqueradeRule(j))
  {
    var u := Detach(t, id);
    assert Count(u, DnatRule(id)) == 0 && Count(u, MasqueradeRule(id)) == 0;
    forall j | j != id
      ensures Count(u, DnatRule(j)) == Count(t, DnatRule(j))
      ensures Count(u, MasqueradeRule(j)) == Count(t, MasqueradeRule(j))
    {
      RulesOfDistinctIds(id, j);
    }
  }

  /**
   * The table invariant the manager keeps: every id has at most one DNAT rule, and it
   * has a MASQUERADE rule exactly when it has a DNAT rule.
   */
  ghost predicate Paired(t: seq<NatRule>) {
    forall id :: Count(t, DnatRule(id)) <= 1 && Count(t, MasqueradeRule(id)) == Count(t, DnatRule(id))
  }

  lemma AttachKeepsPaired(t: seq<NatRule>, id: int)
    requires Paired(t)
    ensures Paired(Attach(t, id))
    ensures Count(Attach(t, id), DnatRule(id)) == 1
  {
    AttachExactlyOnce(t, id);
  }

  lemma DetachKeepsPaired(t: seq<NatRule>, id: int)
    requires Paired(t)
    ensures Paired(Detach(t, id))
    ensures Count(Detach(t, id), DnatRule(id)) == 0
  {
    DetachRemoves(t, id);
  }

  /**
   * What the table keeps even when an `iptables -A` fails: every id has at most one DNAT
   * rule, and a MASQUERADE rule only alongside its DNAT rule, at most once.
   */
  ghost predicate WellFormed(t: seq<NatRule>) {
    forall id :: Count(t, DnatRule(id)) <= 1 && Count(t, MasqueradeRule(id)) <= Count(t, DnatRule(id))
  }

  /** When no `-A` fails, the attach is the plain one; in particular whenever both succeed. */
  lemma AttachWithoutFailure(t: seq<NatRule>, id: int, dnatAdded: bool, masqueradeAdded: bool)
    ensures dnatAdded && masqueradeAdded ==> !AttachRaises(t, id, dnatAdded, masqueradeAdded)
    ensures !AttachRaises(t, id, dnatAdded, masqueradeAdded) ==> AttachWith(t, id, dnatAdded, masqueradeAdded) == Attach(t, id)
  {
  }

  /**
   * Attaching with failures never duplicates a rule, never adds a MASQUERADE rule without
   * its DNAT rule, never removes one of the id's rules, and leaves every other rule alone.
   */
  lemma AttachWithCounts(t: seq<NatRule>, id: int, dnatAdded: bool, masqueradeAdded: bool)
    requires Count(t, DnatRule(id)) <= 1 && Count(t, MasqueradeRule(id)) <= Count(t, DnatRule(id))
    ensures var u := AttachWith(t, id, dnatAdded, masqueradeAdded);
      Count(u, DnatRule(id)) <= 1 && Count(u, MasqueradeRule(id)) <= Count(u, DnatRule(id))
      && Count(t, DnatRule(id)) <= Count(u, DnatRule(id)) && Count(t, MasqueradeRule(id)) <= Count(u, MasqueradeRule(id))
    ensures var u := AttachWith(t, id, dnatAdded, masqueradeAdded);
      forall r :: r != DnatRule(id) && r != MasqueradeRule(id) ==> Count(u, r) == Count(t, r)
  {
    var d, m := DnatRule(id), MasqueradeRule(id);
    if !(d !in t && !dnatAdded) {
      var v := AddIfAbsent(t, d);
      assert Count(v, d) == 1;
      assert Count(v, m) == Count(t, m);
    }
  }

  lemma AttachWithKeepsWellFormed(t: seq<NatRule>, id: int, dnatAdded: bool, masqueradeAdded: bool)
    requires WellFormed(t)
    ensures WellFormed(AttachWith(t, id, dnatAdded, masqueradeAdded))
    ensures forall j :: j != id ==>
      var u := AttachWith(t, id, dnatAdded, masqueradeAdded);
      Count(u, DnatRule(j)) == Count(t, DnatRule(j)) && Count(u, MasqueradeRule(j)) == Count(t, MasqueradeRule(j))
  {
    var u := AttachWith(t, id, dnatAdded, masqueradeAdded);
    AttachWithCounts(t, id, dnatAdded, masqueradeAdded);
    forall j | j != id
      ensures Count(u, DnatRule(j)) == Count(t, DnatRule(j)) && Count(u, MasqueradeRule(j)) == Count(t, MasqueradeRule(j))
    {
      RulesOfDistinctIds(id, j);
    }
  }

  lemma DetachKeepsWellFormed(t: seq<NatRule>, id: int)
    requires WellFormed(t)
    ensures WellFormed(Detach(t, id))
    ensures Count(Detach(t, id), DnatRule(id)) == 0 && Count(Detach(t, id), MasqueradeRule(id)) == 0
  {
    DetachRemoves(t, id);
  }

  /** A failed DNAT add raises with the table unchanged. */
  lemma FailedDnatAddKeepsTable(t: seq<NatRule>, id: int, masqueradeAdded: bool)
    requires DnatRule(id) !in t
    ensures AttachRaises(t, id, false, masqueradeAdded) && AttachWith(t, id, false, masqueradeAdded) == t
  {
  }

  /** A failed MASQUERADE add after a fresh DNAT add raises and leaves the id's rules unpaired. */
  lemma FailedMasqueradeAddUnpairs(t: seq<NatRule>, id: int)
    requires Paired(t) && DnatRule(id) !in t
    ensures AttachRaises(t, id, true, false)
    ensures var u := AttachWith(t, id, true, false);
      Count(u, DnatRule(id)) == 1 && Count(u, MasqueradeRule(id)) == 0 && !Paired(u)
  {
    var d, m := DnatRule(id), MasqueradeRule(id);
    assert Count(t, d) == 0;
    var u := t + [d];
    assert AttachWith(t, id, true, false) == u;
    assert Count(u, m) == Count(t, m);
  }
}
