/**
 * `library/ip_pool.py`: the IP pool lookup under an org, and the part of the
 * file's `vcon_present` that runs with the names the file actually binds.
 */
module IpPool {
  import opened Wrappers
  import opened UcsSdk
  import opened Ucs

  /** The pool `get_ip_pool` finds under `org`: the first direct child of that class and name. */
  function IpPoolOf(store: seq<MO>, org: MO, name: string): Option<MO>
  {
    FirstNamed(Answer(store, ChildQuery(org.dn, IppoolPool, NameFilter(name), false)), name)
  }

  /**
   * `get_ip_pool(handle, org_obj, name)`: a direct-children query
   * (`hierarchy=False`) for IP pools with the filter `(name, "<name>", type="eq")`,
   * scanned for the first pool with that name. With `org_obj = None` the query's
   * answer is not modelled, but a result still carries the name.
   */
  method GetIpPool(handle: Handle, org: Option<MO>, name: string) returns (r: Option<MO>)
    ensures org.Some? ==> r == IpPoolOf(handle.store, org.value, name)
    ensures r.Some? ==> r.value.name == name
  {
    r := None;
    var filter := NameFilter(name);
    var ipPools := handle.QueryChildren(org, IppoolPool, filter, false);
    for i := 0 to |ipPools|
      invariant r == None
      invariant forall j :: 0 <= j < i ==> ipPools[j].name != name
    {
      if ipPools[i].name == name {
        r := Some(ipPools[i]);
        break;
      }
    }
  }

  /** Why this file's `vcon_present` raises: a name the module never binds. */
  datatype PoolError = UnboundName(name: string)

  /**
   * The `vcon_present` of `ip_pool.py`. Without the org it returns False and
   * stages and commits nothing. With the org, building the policy object looks
   * up `VnicLanConnPolicy`, which the file never imports (nor does `ucs.py`,
   * which it star-imports), so the call raises `NameError` before anything is
   * staged.
   */
  method VconPresent(handle: Handle, orgName: string) returns (r: Result<bool, PoolError>)
    ensures OrgOf(handle.store, orgName).None? <==> r == Ok(false)
    ensures OrgOf(handle.store, orgName).Some? <==> r == Err(UnboundName("VnicLanConnPolicy"))
  {
    var org := GetOrg(handle, orgName);
    if org.Some? {
      r := Err(UnboundName("VnicLanConnPolicy"));
    } else {
      r := Ok(false);
    }
  }
}
