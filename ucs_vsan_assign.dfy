/**
 * `library/ucs_vsan_assign.py`: put a list of fabric-interconnect FC ports,
 * written `"<slot>/<port>"`, into a VSAN on one switch.
 */
module UcsVsanAssign {
  import opened Wrappers
  import opened PyStr
  import opened UcsSdk

  /** The DN `get_vsan` asks for: `fabric/san/<switch_id>/net-<vsan_id>`. */
  function VsanDn(switchId: string, vsanId: string): string
  {
    "fabric/san/" + switchId + "/net-" + vsanId
  }

  /** A switch id without `/` fixes both the switch and the VSAN id of the DN. */
  lemma VsanDnInjective(switchId: string, vsanId: string, switchId': string, vsanId': string)
    requires '/' !in switchId && '/' !in switchId'
    ensures VsanDn(switchId, vsanId) == VsanDn(switchId', vsanId') <==>
              switchId == switchId' && vsanId == vsanId'
  {
    var d, d' := VsanDn(switchId, vsanId), VsanDn(switchId', vsanId');
    if d == d' {
      var n, n' := |switchId|, |switchId'|;
      assert d[11 + n] == '/' && d'[11 + n'] == '/';
      assert n == n';
      assert switchId == d[11..11 + n] == d'[11..11 + n'] == switchId';
      assert vsanId == d[16 + n..] == d'[16 + n'..] == vsanId';
    }
  }

  /** The VSAN `get_vsan` returns: the object at that DN, if any. */
  function VsanOf(store: seq<MO>, switchId: string, vsanId: string): Option<MO>
  {
    LookupDn(store, VsanDn(switchId, vsanId))
  }

  /** `get_vsan(handle, vsan_id, switch_id)`: one `query_dn` on the VSAN's DN. */
  method GetVsan(handle: Handle, vsanId: string, switchId: string) returns (r: Option<MO>)
    ensures r == VsanOf(handle.store, switchId, vsanId)
    ensures r.Some? ==> r.value in handle.store && r.value.dn == VsanDn(switchId, vsanId)
    ensures r.None? <==> !HasDn(handle.store, VsanDn(switchId, vsanId))
  {
    var vsanDn := VsanDn(switchId, vsanId);
    r := handle.QueryDn(vsanDn);
  }

  /** `slot_id, port_id = port.split('/')`: exactly two pieces, or the unpacking raises. */
  function ParsePort(s: string): Option<(string, string)>
  {
    var parts := Split(s, '/');
    if |parts| == 2 then Some((parts[0], parts[1])) else None
  }

  /** A port unpacks into `(slot, port)` exactly when it is `slot/port` with one `/`. */
  lemma ParsePortIff(s: string, slot: string, port: string)
    ensures ParsePort(s) == Some((slot, port)) <==> s == slot + "/" + port && '/' !in slot && '/' !in port
  {
    var parts := Split(s, '/');
    if ParsePort(s) == Some((slot, port)) {
      JoinSplit(s, '/');
      assert parts == [slot, port];
      assert Join(parts[1..], '/') == port;
    }
    if s == slot + "/" + port && '/' !in slot && '/' !in port {
      assert s == slot + ['/'] + port;
      SplitAtSep(slot, port, '/');
      SplitNoSep(port, '/');
    }
  }

  /** The index of the first port that does not unpack, or the length when all do. */
  function FirstBadPort(ports: seq<string>): (k: nat)
    ensures k <= |ports|
    ensures forall i :: 0 <= i < k ==> ParsePort(ports[i]).Some?
    ensures k < |ports| ==> ParsePort(ports[k]).None?
    decreases |ports|
  {
    if ports == [] || ParsePort(ports[0]).None? then 0 else 1 + FirstBadPort(ports[1..])
  }

  /**
   * `FabricFcVsanPortEp(parent_mo_or_dn=vsan, name="", auto_negotiate='yes',
   * switch_id=..., slot_id=..., admin_state='enabled', port_id=...)`.
   */
  function PortEp(vsan: MO, switchId: string, slot: string, port: string): MO
  {
    NewMo(vsan, FabricFcVsanPortEp, "",
          map["auto_negotiate" := "yes", "switch_id" := switchId, "slot_id" := slot,
              "admin_state" := "enabled", "port_id" := port])
  }

  /** The port endpoint for each port, in list order. */
  function PortEps(vsan: MO, switchId: string, ports: seq<string>): seq<MO>
    requires forall i :: 0 <= i < |ports| ==> ParsePort(ports[i]).Some?
  {
    seq(|ports|, i requires 0 <= i < |ports| =>
      PortEp(vsan, switchId, ParsePort(ports[i]).value.0, ParsePort(ports[i]).value.1))
  }

  /** One `add_mo(port_ep, True)` per endpoint, in order. */
  function AddCalls(eps: seq<MO>): seq<Call>
  {
    seq(|eps|, i requires 0 <= i < |eps| => AddMoCall(Tree(eps[i], [])))
  }

  /**
   * Each endpoint sits under the VSAN with an empty name, enabled with
   * auto-negotiation on the requested switch, and its slot and port are the two
   * halves of its list entry around the single `/`.
   */
  lemma PortEpsShape(vsan: MO, switchId: string, ports: seq<string>)
    requires forall i :: 0 <= i < |ports| ==> ParsePort(ports[i]).Some?
    ensures var eps := PortEps(vsan, switchId, ports);
      && |eps| == |ports|
      && forall i :: 0 <= i < |ports| ==>
           && eps[i].classId == FabricFcVsanPortEp && eps[i].parentDn == vsan.dn
           && eps[i].name == ""
           && Prop(eps[i].props, "slot_id") + "/" + Prop(eps[i].props, "port_id") == ports[i]
           && '/' !in Prop(eps[i].props, "slot_id") && '/' !in Prop(eps[i].props, "port_id")
           && Prop(eps[i].props, "switch_id") == switchId
           && Prop(eps[i].props, "auto_negotiate") == "yes"
           && Prop(eps[i].props, "admin_state") == "enabled"
  {
    var eps := PortEps(vsan, switchId, ports);
    forall i | 0 <= i < |ports|
      ensures Prop(eps[i].props, "slot_id") + "/" + Prop(eps[i].props, "port_id") == ports[i]
      ensures '/' !in Prop(eps[i].props, "slot_id") && '/' !in Prop(eps[i].props, "port_id")
    {
      var pp := ParsePort(ports[i]).value;
      ParsePortIff(ports[i], pp.0, pp.1);
    }
  }

  /** Why `assign_ports` raises. */
  datatype PortError =
    | PortsMissing          // `ports` not given: iterating over None
    | MalformedPort(port: string)  // a port that is not `slot/port`

  /**
   * The loop of `assign_ports`: each port in turn becomes a port endpoint added
   * with `add_mo`, until a port does not unpack. Returns the index of that
   * port, or the length of the list when every port unpacked.
   */
  method StagePorts(handle: Handle, vsan: MO, switchId: string, ps: seq<string>) returns (k: nat)
    modifies handle
    ensures k == FirstBadPort(ps)
    ensures handle.calls == old(handle.calls) + AddCalls(PortEps(vsan, switchId, ps[..k]))
    ensures handle.staged == old(handle.staged) + Upserts(PortEps(vsan, switchId, ps[..k]))
    ensures handle.store == old(handle.store)
    ensures handle.name == old(handle.name) && handle.loggedIn == old(handle.loggedIn)
  {
    ghost var eps: seq<MO> := [];
    k := 0;
    while k < |ps|
      invariant k <= |ps|
      invariant forall j :: 0 <= j < k ==> ParsePort(ps[j]).Some?
      invariant eps == PortEps(vsan, switchId, ps[..k])
      invariant handle.calls == old(handle.calls) + AddCalls(eps)
      invariant handle.staged == old(handle.staged) + Upserts(eps)
      invariant handle.store == old(handle.store)
      invariant handle.name == old(handle.name) && handle.loggedIn == old(handle.loggedIn)
    {
      var parsed := ParsePort(ps[k]);
      if parsed.None? {
        break;
      }
      var portEp := PortEp(vsan, switchId, parsed.value.0, parsed.value.1);
      handle.AddMo(Tree(portEp, []));
      StagePortStep(vsan, switchId, ps, k);
      assert handle.calls == old(handle.calls) + (AddCalls(eps) + [AddMoCall(Tree(portEp, []))]);
      assert handle.staged == old(handle.staged) + (Upserts(eps) + Staged(Tree(portEp, [])));
      eps := eps + [portEp];
      k := k + 1;
    }
  }

  /** One more port extends the endpoints, the staged changes and the call log by one. */
  lemma StagePortStep(vsan: MO, switchId: string, ps: seq<string>, k: nat)
    requires k < |ps| && forall j :: 0 <= j <= k ==> ParsePort(ps[j]).Some?
    ensures var e := PortEp(vsan, switchId, ParsePort(ps[k]).value.0, ParsePort(ps[k]).value.1);
      var eps := PortEps(vsan, switchId, ps[..k]);
      && PortEps(vsan, switchId, ps[..k + 1]) == eps + [e]
      && Upserts(eps + [e]) == Upserts(eps) + Staged(Tree(e, []))
      && AddCalls(eps + [e]) == AddCalls(eps) + [AddMoCall(Tree(e, []))]
  {
    var e := PortEp(vsan, switchId, ParsePort(ps[k]).value.0, ParsePort(ps[k]).value.1);
    var eps := PortEps(vsan, switchId, ps[..k]);
    assert ps[..k + 1] == ps[..k] + [ps[k]];
    assert PortEps(vsan, switchId, ps[..k + 1]) == eps + [e];
    assert Staged(Tree(e, [])) == [Upsert(e)];
    assert Upserts(eps + [e]) == Upserts(eps) + [Upsert(e)];
  }

  /**
   * `assign_ports(handle, params)`. Without the VSAN: False and nothing staged.
   * With it, each port in turn becomes a port endpoint added with `add_mo`;
   * a port that does not unpack raises at that point, after the endpoints for
   * the earlier ports were staged and with nothing committed; when every port
   * unpacks, one `commit` follows and the result is True, also for an empty list.
   */
  method AssignPorts(handle: Handle, vsanId: string, switchId: string, ports: Option<seq<string>>)
    returns (r: Result<bool, PortError>)
    modifies handle
    ensures VsanOf(old(handle.store), switchId, vsanId).None? ==>
      && r == Ok(false)
      && handle.calls == old(handle.calls) && handle.staged == old(handle.staged)
      && handle.store == old(handle.store)
    ensures VsanOf(old(handle.store), switchId, vsanId).Some? && ports.None? ==>
      && r == Err(PortsMissing)
      && handle.calls == old(handle.calls) && handle.staged == old(handle.staged)
      && handle.store == old(handle.store)
    ensures VsanOf(old(handle.store), switchId, vsanId).Some? && ports.Some? ==>
      var vsan := VsanOf(old(handle.store), switchId, vsanId).value;
      var k := FirstBadPort(ports.value);
      var eps := PortEps(vsan, switchId, ports.value[..k]);
      && (k == |ports.value| ==>
            && r == Ok(true)
            && handle.calls == old(handle.calls) + AddCalls(eps) + [CommitCall]
            && handle.staged == []
            && handle.store == ApplyAll(old(handle.store), old(handle.staged) + Upserts(eps)))
      && (k < |ports.value| ==>
            && r == Err(MalformedPort(ports.value[k]))
            && handle.calls == old(handle.calls) + AddCalls(eps)
            && handle.staged == old(handle.staged) + Upserts(eps)
            && handle.store == old(handle.store))
    ensures handle.name == old(handle.name) && handle.loggedIn == old(handle.loggedIn)
  {
    var vsan := GetVsan(handle, vsanId, switchId);
    if vsan.None? {
      return Ok(false);
    }
    if ports.None? {
      return Err(PortsMissing);
    }
    var ps := ports.value;
    var k := StagePorts(handle, vsan.value, switchId, ps);
    if k < |ps| {
      return Err(MalformedPort(ps[k]));
    }
    handle.Commit();
    r := Ok(true);
  }

  /**
   * After a successful `assign_ports`, there is an object at the DN of the
   * endpoint of every listed port, whatever else was staged before.
   */
  lemma PortsCommitted(store: seq<MO>, before: seq<Change>, vsan: MO, switchId: string,
                       ports: seq<string>)
    requires forall i :: 0 <= i < |ports| ==> ParsePort(ports[i]).Some?
    ensures var eps := PortEps(vsan, switchId, ports);
      forall i :: 0 <= i < |eps| ==> HasDn(ApplyAll(store, before + Upserts(eps)), eps[i].dn)
  {
    var eps := PortEps(vsan, switchId, ports);
    ApplyAllAppend(store, before, Upserts(eps));
    UpsertsCover(ApplyAll(store, before), eps);
  }
}
