/**
 * `library/ucs_lan_conn.py`: the LAN connection policy of an org, with one
 * vNIC per entry of `vnics`, created by `vcon_present` and removed by
 * `vcon_absent`.
 */
module UcsLanConn {
  import opened Wrappers
  import opened PyStr
  import opened UcsSdk
  import opened Ucs

  /** One entry of `vnics`: name, position in the policy, vNIC template, adapter policy. */
  datatype Vnic = Vnic(name: string, order: int, templ: string, policy: string)

  /** The module parameters the two reconcilers read; `vnics` is not a required option and may be unset. */
  datatype LanConnParams = LanConnParams(orgName: string, lanConName: string, lanConDescr: string,
                                         vnics: Option<seq<Vnic>>)

  /** `VnicLanConnPolicy(parent_mo_or_dn=org, name=lan_con_name, descr=lan_con_descr)`. */
  function PolicyMo(org: MO, p: LanConnParams): MO
  {
    NewMo(org, VnicLanConnPolicy, p.lanConName, map["descr" := p.lanConDescr])
  }

  /** `VnicEther(parent_mo_or_dn=policy, name=..., order=str(order), nw_templ_name=..., adaptor_profile_name=...)`. */
  function EtherMo(policy: MO, v: Vnic): MO
  {
    NewMo(policy, VnicEther, v.name,
          map["order" := IntToString(v.order), "nw_templ_name" := v.templ,
              "adaptor_profile_name" := v.policy])
  }

  /** The vNICs of `vnics`, in list order. */
  function EtherMos(policy: MO, vnics: seq<Vnic>): seq<MO>
  {
    seq(|vnics|, i requires 0 <= i < |vnics| => EtherMo(policy, vnics[i]))
  }

  lemma EtherMosPrefix(policy: MO, vnics: seq<Vnic>, i: nat)
    requires i < |vnics|
    ensures EtherMos(policy, vnics)[..i + 1] == EtherMos(policy, vnics)[..i] + [EtherMo(policy, vnics[i])]
  {
    var ms := EtherMos(policy, vnics);
    assert ms[i] == EtherMo(policy, vnics[i]);
    assert ms[..i + 1] == ms[..i] + [ms[i]];
  }

  /** The policy with its vNICs, as built in memory before `add_mo`. */
  function PolicyTree(org: MO, p: LanConnParams, vnics: seq<Vnic>): Tree
  {
    var policy := PolicyMo(org, p);
    Tree(policy, EtherMos(policy, vnics))
  }

  /**
   * The staged subtree: a `VnicLanConnPolicy` under the org with the requested
   * name and description, and one `VnicEther` child per `vnics` entry, in list
   * order, carrying the entry's name, template and adapter policy and its order
   * as a string that reads back as that order.
   */
  lemma PolicyTreeShape(org: MO, p: LanConnParams, vnics: seq<Vnic>)
    ensures var t := PolicyTree(org, p, vnics);
      && t.root.classId == VnicLanConnPolicy && t.root.parentDn == org.dn
      && t.root.name == p.lanConName && t.root.props == map["descr" := p.lanConDescr]
      && |t.children| == |vnics|
      && forall i :: 0 <= i < |vnics| ==>
           && t.children[i].classId == VnicEther
           && t.children[i].parentDn == t.root.dn
           && t.children[i].dn != t.root.dn
           && t.children[i].name == vnics[i].name
           && "order" in t.children[i].props
           && ParseInt(t.children[i].props["order"]) == Some(vnics[i].order)
           && Prop(t.children[i].props, "nw_templ_name") == vnics[i].templ
           && Prop(t.children[i].props, "adaptor_profile_name") == vnics[i].policy
  {
    var t := PolicyTree(org, p, vnics);
    forall i | 0 <= i < |vnics|
      ensures ParseInt(t.children[i].props["order"]) == Some(vnics[i].order)
    {
      IntToStringRoundTrip(vnics[i].order);
    }
  }

  /** The policy `get_vcon` finds under `org`: the first direct child of that class and name. */
  function VconOf(store: seq<MO>, org: MO, name: string): Option<MO>
  {
    FirstNamed(Answer(store, ChildQuery(org.dn, VnicLanConnPolicy, NameFilter(name), false)), name)
  }

  /**
   * `get_vcon(handle, org_obj, name)`: a direct-children query (`hierarchy=False`)
   * for LAN connection policies with the filter `(name, "<name>", type="eq")`,
   * scanned for the first child with that name. With `org_obj = None` the query's
   * answer is not modelled, but a result still carries the name.
   */
  method GetVcon(handle: Handle, org: Option<MO>, name: string) returns (r: Option<MO>)
    ensures org.Some? ==> r == VconOf(handle.store, org.value, name)
    ensures r.Some? ==> r.value.name == name
  {
    r := None;
    var filter := NameFilter(name);
    var vcons := handle.QueryChildren(org, VnicLanConnPolicy, filter, false);
    for i := 0 to |vcons|
      invariant r == None
      invariant forall j :: 0 <= j < i ==> vcons[j].name != name
    {
      if vcons[i].name == name {
        r := Some(vcons[i]);
        break;
      }
    }
  }

  /**
   * The in-memory construction in `vcon_present`: the policy, then one vNIC
   * per entry of `vnics`, each parented to the policy; with `vnics` unset the
   * loop raises `TypeError`.
   */
  method BuildPolicyTree(org: MO, p: LanConnParams) returns (r: Result<Tree, ParamError>)
    ensures p.vnics.None? ==> r == Err(NotIterable("vnics"))
    ensures p.vnics.Some? ==> r == Ok(PolicyTree(org, p, p.vnics.value))
  {
    var policy := PolicyMo(org, p);
    if p.vnics.None? {
      return Err(NotIterable("vnics"));
    }
    var entries := p.vnics.value;
    var vnics: seq<MO> := [];
    for i := 0 to |entries|
      invariant vnics == EtherMos(policy, entries)[..i]
    {
      EtherMosPrefix(policy, entries, i);
      vnics := vnics + [EtherMo(policy, entries[i])];
    }
    assert EtherMos(policy, entries)[..|entries|] == EtherMos(policy, entries);
    r := Ok(Tree(policy, vnics));
  }

  /**
   * `vcon_present(handle, params)`. Without the org: False, and nothing staged
   * or committed. With the org but `vnics` unset: the `TypeError` of the loop,
   * before anything is staged. Otherwise the policy tree goes out in one
   * `add_mo` and one `commit`, with no check for an existing policy first, and
   * the result is True when the lookup afterwards finds the policy and no value
   * otherwise; the commit always leaves the policy there, so every such call
   * reports True.
   */
  method VconPresent(handle: Handle, p: LanConnParams) returns (r: Result<Option<bool>, ParamError>)
    modifies handle
    ensures OrgOf(old(handle.store), p.orgName).None? ==>
      && r == Ok(Some(false))
      && handle.calls == old(handle.calls)
      && handle.store == old(handle.store) && handle.staged == old(handle.staged)
    ensures OrgOf(old(handle.store), p.orgName).Some? && p.vnics.None? ==>
      && r == Err(NotIterable("vnics"))
      && handle.calls == old(handle.calls)
      && handle.store == old(handle.store) && handle.staged == old(handle.staged)
    ensures OrgOf(old(handle.store), p.orgName).Some? && p.vnics.Some? ==>
      var org := OrgOf(old(handle.store), p.orgName).value;
      var t := PolicyTree(org, p, p.vnics.value);
      && handle.calls == old(handle.calls) + [AddMoCall(t), CommitCall]
      && handle.staged == []
      && handle.store == ApplyAll(old(handle.store), old(handle.staged) + Staged(t))
      && r == (if VconOf(handle.store, org, p.lanConName).Some? then Ok(Some(true)) else Ok(None))
      && r == Ok(Some(true))
    ensures handle.name == old(handle.name) && handle.loggedIn == old(handle.loggedIn)
  {
    var org := GetOrg(handle, p.orgName);
    if org.Some? {
      var tree := BuildPolicyTree(org.value, p);
      if tree.Err? {
        return Err(tree.error);
      }
      handle.AddMo(tree.value);
      handle.Commit();
      var found := GetVcon(handle, org, p.lanConName);
      if found.Some? {
        r := Ok(Some(true));
      } else {
        r := Ok(None);
      }
      PresentFinds(old(handle.store), old(handle.staged), org.value, p, p.vnics.value);
    } else {
      r := Ok(Some(false));
    }
  }

  /** After the commit of `vcon_present`, the lookup finds the policy. */
  lemma PresentFinds(store: seq<MO>, before: seq<Change>, org: MO, p: LanConnParams, vnics: seq<Vnic>)
    ensures VconOf(ApplyAll(store, before + Staged(PolicyTree(org, p, vnics))), org, p.lanConName).Some?
  {
    var t := PolicyTree(org, p, vnics);
    PolicyTreeShape(org, p, vnics);
    TreeRootCommitted(store, before, t);
    var s := ApplyAll(store, before + Staged(t));
    NameFilterRoundTrip(p.lanConName);
    AnswerMembers(s, ChildQuery(org.dn, VnicLanConnPolicy, NameFilter(p.lanConName), false));
    assert t.root in Answer(s, ChildQuery(org.dn, VnicLanConnPolicy, NameFilter(p.lanConName), false));
  }

  /** The policy `vcon_absent` removes: the first match under the org, when there is an org. */
  function AbsentTarget(store: seq<MO>, p: LanConnParams): Option<MO>
  {
    var org := OrgOf(store, p.orgName);
    if org.Some? then VconOf(store, org.value, p.lanConName) else None
  }

  /**
   * The scan in `vcon_absent`: the first policy of the child query's
   * answer that has the name is removed and committed, and the scan stops;
   * without one, nothing is staged or committed.
   */
  method RemoveVcon(handle: Handle, org: MO, name: string) returns (removed: Option<MO>)
    modifies handle
    ensures removed == VconOf(old(handle.store), org, name)
    ensures removed.None? ==>
      handle.calls == old(handle.calls) && handle.store == old(handle.store)
      && handle.staged == old(handle.staged)
    ensures removed.Some? ==>
      && handle.calls == old(handle.calls) + [RemoveMoCall(removed.value), CommitCall]
      && handle.staged == []
      && handle.store == ApplyAll(old(handle.store), old(handle.staged) + [Delete(removed.value.dn)])
    ensures handle.name == old(handle.name) && handle.loggedIn == old(handle.loggedIn)
  {
    removed := None;
    var filter := NameFilter(name);
    var vcons := handle.QueryChildren(Some(org), VnicLanConnPolicy, filter, false);
    for i := 0 to |vcons|
      invariant removed == None
      invariant forall j :: 0 <= j < i ==> vcons[j].name != name
      invariant handle.calls == old(handle.calls) && handle.store == old(handle.store)
      invariant handle.staged == old(handle.staged)
    {
      if vcons[i].name == name {
        removed := Some(vcons[i]);
        handle.RemoveMo(vcons[i]);
        handle.Commit();
        break;
      }
    }
  }

  /**
   * `vcon_absent(handle, params)`. With the org, the first policy the child
   * query returns under the requested name is removed and committed, and nothing
   * else is; without a match, or without the org, nothing is staged or
   * committed. The result is whether the lookup afterwards still finds the
   * policy, so a removal reports False (when nothing else was staged and every
   * DN follows its object's name).
   */
  method VconAbsent(handle: Handle, p: LanConnParams) returns (r: bool)
    modifies handle
    ensures AbsentTarget(old(handle.store), p).None? ==>
      handle.calls == old(handle.calls) && handle.store == old(handle.store)
      && handle.staged == old(handle.staged)
    ensures AbsentTarget(old(handle.store), p).Some? ==>
      && handle.calls == old(handle.calls) + [RemoveMoCall(AbsentTarget(old(handle.store), p).value), CommitCall]
      && handle.staged == []
      && handle.store == ApplyAll(old(handle.store),
                                  old(handle.staged) + [Delete(AbsentTarget(old(handle.store), p).value.dn)])
    ensures OrgOf(old(handle.store), p.orgName).Some? ==>
      r == VconOf(handle.store, OrgOf(old(handle.store), p.orgName).value, p.lanConName).Some?
    ensures (AbsentTarget(old(handle.store), p).Some? && old(handle.staged) == []
             && AllWellFormed(old(handle.store))) ==> !r
    ensures handle.name == old(handle.name) && handle.loggedIn == old(handle.loggedIn)
  {
    var org := GetOrg(handle, p.orgName);
    if org.Some? {
      var removed := RemoveVcon(handle, org.value, p.lanConName);
      if removed.Some? && old(handle.staged) == [] && AllWellFormed(old(handle.store)) {
        RemovedVconGone(old(handle.store), org.value, removed.value, p.lanConName);
      }
    }
    var still := GetVcon(handle, org, p.lanConName);
    r := still.Some?;
  }

  /** Removing the policy `get_vcon` found leaves none of that name under the org. */
  lemma RemovedVconGone(store: seq<MO>, org: MO, m: MO, name: string)
    requires AllWellFormed(store)
    requires VconOf(store, org, name) == Some(m)
    ensures VconOf(ApplyAll(store, [] + [Delete(m.dn)]), org, name).None?
  {
    ChildLookup(store, org.dn, VnicLanConnPolicy, name);
    assert ApplyAll(store, []) == store;
    PrunedChildGone(store, [], m, VnicLanConnPolicy, name);
  }

  /**
   * Two `vcon_present` calls in a row, starting with nothing staged: with the
   * org and `vnics` given, each stages the same whole tree, commits once and
   * reports True, since there is no existence check to stop the second; with
   * `vnics` unset, both raise and nothing is staged or committed.
   */
  method PresentTwice(handle: Handle, p: LanConnParams)
    returns (first: Result<Option<bool>, ParamError>, second: Result<Option<bool>, ParamError>)
    modifies handle
    ensures old(handle.staged) == [] && OrgOf(old(handle.store), p.orgName).Some? && p.vnics.Some? ==>
      var t := PolicyTree(OrgOf(old(handle.store), p.orgName).value, p, p.vnics.value);
      && first == Ok(Some(true)) && second == Ok(Some(true))
      && handle.calls == old(handle.calls) + [AddMoCall(t), CommitCall] + [AddMoCall(t), CommitCall]
    ensures OrgOf(old(handle.store), p.orgName).Some? && p.vnics.None? ==>
      && first == Err(NotIterable("vnics")) && second == Err(NotIterable("vnics"))
      && handle.calls == old(handle.calls)
      && handle.store == old(handle.store) && handle.staged == old(handle.staged)
  {
    var store0 := handle.store;
    ghost var calls0 := handle.calls;
    var org := OrgOf(store0, p.orgName);
    if org.Some? && p.vnics.None? {
      first := VconPresent(handle, p);
      assert handle.store == store0;
      second := VconPresent(handle, p);
    } else if handle.staged == [] && org.Some? {
      ghost var t := PolicyTree(org.value, p, p.vnics.value);
      first := VconPresent(handle, p);
      assert handle.store == ApplyAll(store0, [] + Staged(t));
      assert handle.calls == calls0 + [AddMoCall(t), CommitCall];
      OrgSurvivesPresent(store0, p, p.vnics.value);
      ghost var calls1 := handle.calls;
      second := VconPresent(handle, p);
      assert handle.calls == calls1 + [AddMoCall(t), CommitCall];
    } else {
      first := VconPresent(handle, p);
      second := VconPresent(handle, p);
    }
  }

  /** The commit of `vcon_present` leaves `get_org` settling on the same org as before. */
  lemma OrgSurvivesPresent(store: seq<MO>, p: LanConnParams, vnics: seq<Vnic>)
    requires OrgOf(store, p.orgName).Some?
    ensures OrgOf(ApplyAll(store, [] + Staged(PolicyTree(OrgOf(store, p.orgName).value, p, vnics))), p.orgName)
         == OrgOf(store, p.orgName)
  {
    var org := OrgOf(store, p.orgName).value;
    var q := ClassQuery(OrgOrg, OrgFilter(p.orgName));
    var t := PolicyTree(org, p, vnics);
    assert [] + Staged(t) == Staged(t);
    assert Staged(t)[0] == Upsert(t.root) && Staged(t)[1..] == Upserts(t.children);
    assert |t.root.dn| > |org.dn|;
    UpsertKeepsLastHit(store, q, p.orgName, t.root);
    var s1 := ReplaceOrAppend(store, t.root);
    forall i | 0 <= i < |t.children|
      ensures t.children[i].dn != org.dn && !Hit(q, t.children[i], p.orgName)
    {
      assert |t.children[i].dn| > |t.root.dn|;
    }
    UpsertsKeepLastHit(s1, q, p.orgName, t.children);
    assert ApplyAll(store, Staged(t)) == ApplyAll(s1, Upserts(t.children));
  }
}
