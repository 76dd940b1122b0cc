/**
 * `library/ucs_san_conn.py`: the SAN connection policy of an org, with one
 * `VnicFcNode` naming the WWNN pool and one vHBA per entry of `hbas`, created
 * by `san_con_present` and removed by `san_con_absent`.
 */
module UcsSanConn {
  import opened Wrappers
  import opened PyStr
  import opened UcsSdk
  import opened Ucs

  /** One entry of `hbas`: name, position in the policy, vHBA template, adapter policy. */
  datatype Hba = Hba(name: string, order: int, templ: string, policy: string)

  /** The module parameters the two reconcilers read; `hbas` is not a required option and may be unset. */
  datatype SanConnParams = SanConnParams(orgName: string, sanConName: string, sanConDescr: string,
                                         wwnnPool: string, hbas: Option<seq<Hba>>)

  /** `VnicSanConnPolicy(parent_mo_or_dn=org, name=san_con_name, descr=san_con_descr)`. */
  function PolicyMo(org: MO, p: SanConnParams): MO
  {
    NewMo(org, VnicSanConnPolicy, p.sanConName, map["descr" := p.sanConDescr])
  }

  /** `VnicFcNode(parent_mo_or_dn=policy, ident_pool_name=wwnn_pool)`. */
  function FcNodeMo(policy: MO, wwnnPool: string): MO
  {
    NewMo(policy, VnicFcNode, "", map["ident_pool_name" := wwnnPool])
  }

  /** `VnicFc(parent_mo_or_dn=policy, name=..., order=str(order), nw_templ_name=..., adaptor_profile_name=...)`. */
  function FcMo(policy: MO, h: Hba): MO
  {
    NewMo(policy, VnicFc, h.name,
          map["order" := IntToString(h.order), "nw_templ_name" := h.templ,
              "adaptor_profile_name" := h.policy])
  }

  /** The vHBAs of `hbas`, in list order. */
  function FcMos(policy: MO, hbas: seq<Hba>): seq<MO>
  {
    seq(|hbas|, i requires 0 <= i < |hbas| => FcMo(policy, hbas[i]))
  }

  lemma FcMosPrefix(policy: MO, hbas: seq<Hba>, i: nat)
    requires i < |hbas|
    ensures FcMos(policy, hbas)[..i + 1] == FcMos(policy, hbas)[..i] + [FcMo(policy, hbas[i])]
  {
    var ms := FcMos(policy, hbas);
    assert ms[i] == FcMo(policy, hbas[i]);
    assert ms[..i + 1] == ms[..i] + [ms[i]];
  }

  /** The policy with its FC node and vHBAs, in the order they are built in memory. */
  function PolicyTree(org: MO, p: SanConnParams, hbas: seq<Hba>): Tree
  {
    var policy := PolicyMo(org, p);
    Tree(policy, [FcNodeMo(policy, p.wwnnPool)] + FcMos(policy, hbas))
  }

  /**
   * The staged subtree: a `VnicSanConnPolicy` under the org with the requested
   * name and description; first exactly one `VnicFcNode` child carrying the WWNN
   * pool, then one `VnicFc` child per `hbas` entry, in list order, with the
   * entry's name, template and adapter policy and its order as a string that
   * reads back as that order.
   */
  lemma PolicyTreeShape(org: MO, p: SanConnParams, hbas: seq<Hba>)
    ensures var t := PolicyTree(org, p, hbas);
      && t.root.classId == VnicSanConnPolicy && t.root.parentDn == org.dn
      && t.root.name == p.sanConName && t.root.props == map["descr" := p.sanConDescr]
      && |t.children| == 1 + |hbas|
      && t.children[0].classId == VnicFcNode && t.children[0].parentDn == t.root.dn
      && Prop(t.children[0].props, "ident_pool_name") == p.wwnnPool
      && (forall i :: 0 <= i < |t.children| ==> t.children[i].dn != t.root.dn)
      && forall i :: 0 <= i < |hbas| ==>
           && t.children[i + 1].classId == VnicFc
           && t.children[i + 1].parentDn == t.root.dn
           && t.children[i + 1].name == hbas[i].name
           && "order" in t.children[i + 1].props
           && ParseInt(t.children[i + 1].props["order"]) == Some(hbas[i].order)
           && Prop(t.children[i + 1].props, "nw_templ_name") == hbas[i].templ
           && Prop(t.children[i + 1].props, "adaptor_profile_name") == hbas[i].policy
  {
    var t := PolicyTree(org, p, hbas);
    ChildrenShape(t.root, p.wwnnPool, hbas);
  }

  /** The children of the policy: the FC node first, then the vHBAs in list order. */
  lemma ChildrenShape(policy: MO, wwnnPool: string, hbas: seq<Hba>)
    ensures var cs := [FcNodeMo(policy, wwnnPool)] + FcMos(policy, hbas);
      && |cs| == 1 + |hbas|
      && cs[0].classId == VnicFcNode && cs[0].parentDn == policy.dn
      && Prop(cs[0].props, "ident_pool_name") == wwnnPool
      && (forall i :: 0 <= i < |cs| ==> cs[i].dn != policy.dn)
      && forall i :: 0 <= i < |hbas| ==>
           && cs[i + 1].classId == VnicFc
           && cs[i + 1].parentDn == policy.dn
           && cs[i + 1].name == hbas[i].name
           && "order" in cs[i + 1].props
           && ParseInt(cs[i + 1].props["order"]) == Some(hbas[i].order)
           && Prop(cs[i + 1].props, "nw_templ_name") == hbas[i].templ
           && Prop(cs[i + 1].props, "adaptor_profile_name") == hbas[i].policy
  {
    var ms := FcMos(policy, hbas);
    var cs := [FcNodeMo(policy, wwnnPool)] + ms;
    FcMosShape(policy, hbas);
    forall i | 0 <= i < |cs|
      ensures cs[i].dn != policy.dn
    {
      if i > 0 {
        assert cs[i] == ms[i - 1];
      }
    }
    forall i | 0 <= i < |hbas|
      ensures && cs[i + 1].classId == VnicFc
              && cs[i + 1].parentDn == policy.dn
              && cs[i + 1].name == hbas[i].name
              && "order" in cs[i + 1].props
              && ParseInt(cs[i + 1].props["order"]) == Some(hbas[i].order)
              && Prop(cs[i + 1].props, "nw_templ_name") == hbas[i].templ
              && Prop(cs[i + 1].props, "adaptor_profile_name") == hbas[i].policy
    {
      assert cs[i + 1] == ms[i];
    }
  }

  /** Each vHBA is a `VnicFc` under the policy with its entry's fields and an order that reads back. */
  lemma FcMosShape(policy: MO, hbas: seq<Hba>)
    ensures var ms := FcMos(policy, hbas);
      && |ms| == |hbas|
      && forall i :: 0 <= i < |hbas| ==>
           && ms[i].classId == VnicFc
           && ms[i].parentDn == policy.dn && |ms[i].dn| > |policy.dn|
           && ms[i].name == hbas[i].name
           && "order" in ms[i].props
           && ParseInt(ms[i].props["order"]) == Some(hbas[i].order)
           && Prop(ms[i].props, "nw_templ_name") == hbas[i].templ
           && Prop(ms[i].props, "adaptor_profile_name") == hbas[i].policy
  {
    var ms := FcMos(policy, hbas);
    forall i | 0 <= i < |hbas|
      ensures |ms[i].dn| > |policy.dn|
      ensures ParseInt(ms[i].props["order"]) == Some(hbas[i].order)
    {
      assert ms[i] == FcMo(policy, hbas[i]);
      IntToStringRoundTrip(hbas[i].order);
    }
  }

  /** The policy `get_san_con` finds under `org`: the first direct child of that class and name. */
  function SanConOf(store: seq<MO>, org: MO, name: string): Option<MO>
  {
    FirstNamed(Answer(store, ChildQuery(org.dn, VnicSanConnPolicy, NameFilter(name), false)), name)
  }

  /**
   * `get_san_con(handle, org_obj, name)`: a direct-children query
   * (`hierarchy=False`) for SAN connection policies with the filter
   * `(name, "<name>", type="eq")`, scanned for the first child with that name.
   * With `org_obj = None` the query's answer is not modelled, but a result still
   * carries the name.
   */
  method GetSanCon(handle: Handle, org: Option<MO>, name: string) returns (r: Option<MO>)
    ensures org.Some? ==> r == SanConOf(handle.store, org.value, name)
    ensures r.Some? ==> r.value.name == name
  {
    r := None;
    var filter := NameFilter(name);
    var sanCons := handle.QueryChildren(org, VnicSanConnPolicy, filter, false);
    for i := 0 to |sanCons|
      invariant r == None
      invariant forall j :: 0 <= j < i ==> sanCons[j].name != name
    {
      if sanCons[i].name == name {
        r := Some(sanCons[i]);
        break;
      }
    }
  }

  /**
   * The in-memory construction in `san_con_present`: the policy, its FC node,
   * then one vHBA per entry of `hbas`, each parented to the policy; with `hbas`
   * unset the loop raises `TypeError`.
   */
  method BuildPolicyTree(org: MO, p: SanConnParams) returns (r: Result<Tree, ParamError>)
    ensures p.hbas.None? ==> r == Err(NotIterable("hbas"))
    ensures p.hbas.Some? ==> r == Ok(PolicyTree(org, p, p.hbas.value))
  {
    var policy := PolicyMo(org, p);
    var fcNode := FcNodeMo(policy, p.wwnnPool);
    if p.hbas.None? {
      return Err(NotIterable("hbas"));
    }
    var entries := p.hbas.value;
    var hbas: seq<MO> := [];
    for i := 0 to |entries|
      invariant hbas == FcMos(policy, entries)[..i]
    {
      FcMosPrefix(policy, entries, i);
      hbas := hbas + [FcMo(policy, entries[i])];
    }
    assert FcMos(policy, entries)[..|entries|] == FcMos(policy, entries);
    r := Ok(Tree(policy, [fcNode] + hbas));
  }

  /**
   * `san_con_present(handle, params)`. Without the org: False, and nothing
   * staged or committed. With the org but `hbas` unset: the `TypeError` of the
   * loop, before anything is staged. Otherwise the policy tree goes out in one
   * `add_mo` and one `commit`, with no check for an existing policy first, and
   * the result is True when the lookup afterwards finds the policy and no value
   * otherwise; the commit always leaves the policy there, so every such call
   * reports True.
   */
  method SanConPresent(handle: Handle, p: SanConnParams) returns (r: Result<Option<bool>, ParamError>)
    modifies handle
    ensures OrgOf(old(handle.store), p.orgName).None? ==>
      && r == Ok(Some(false))
      && handle.calls == old(handle.calls)
      && handle.store == old(handle.store) && handle.staged == old(handle.staged)
    ensures OrgOf(old(handle.store), p.orgName).Some? && p.hbas.None? ==>
      && r == Err(NotIterable("hbas"))
      && handle.calls == old(handle.calls)
      && handle.store == old(handle.store) && handle.staged == old(handle.staged)
    ensures OrgOf(old(handle.store), p.orgName).Some? && p.hbas.Some? ==>
      var org := OrgOf(old(handle.store), p.orgName).value;
      var t := PolicyTree(org, p, p.hbas.value);
      && handle.calls == old(handle.calls) + [AddMoCall(t), CommitCall]
      && handle.staged == []
      && handle.store == ApplyAll(old(handle.store), old(handle.staged) + Staged(t))
      && r == (if SanConOf(handle.store, org, p.sanConName).Some? then Ok(Some(true)) else Ok(None))
      && r == Ok(Some(true))
    ensures handle.name == old(handle.name) && handle.loggedIn == old(handle.loggedIn)
  {
    var org := GetOrg(handle, p.orgName);
    if org.Some? {
      var tree := BuildPolicyTree(org.value, p);
      if tree.Err? {
        return Err(tree.error);
      }
      handle.AddMo(tree.value);
      handle.Commit();
      var found := GetSanCon(handle, org, p.sanConName);
      if found.Some? {
        r := Ok(Some(true));
      } else {
        r := Ok(None);
      }
      PresentFinds(old(handle.store), old(handle.staged), org.value, p, p.hbas.value);
    } else {
      r := Ok(Some(false));
    }
  }

  /** After the commit of `san_con_present`, the lookup finds the policy. */
  lemma PresentFinds(store: seq<MO>, before: seq<Change>, org: MO, p: SanConnParams, hbas: seq<Hba>)
    ensures SanConOf(ApplyAll(store, before + Staged(PolicyTree(org, p, hbas))), org, p.sanConName).Some?
  {
    var t := PolicyTree(org, p, hbas);
    PolicyTreeShape(org, p, hbas);
    TreeRootCommitted(store, before, t);
    var s := ApplyAll(store, before + Staged(t));
    NameFilterRoundTrip(p.sanConName);
    AnswerMembers(s, ChildQuery(org.dn, VnicSanConnPolicy, NameFilter(p.sanConName), false));
    assert t.root in Answer(s, ChildQuery(org.dn, VnicSanConnPolicy, NameFilter(p.sanConName), false));
  }

  /** The policy `san_con_absent` removes: the first match under the org, when there is an org. */
  function AbsentTarget(store: seq<MO>, p: SanConnParams): Option<MO>
  {
    var org := OrgOf(store, p.orgName);
    if org.Some? then SanConOf(store, org.value, p.sanConName) else None
  }

  /**
   * The scan in `san_con_absent`: the first policy of the child query's
   * answer that has the name is removed and committed, and the scan stops;
   * without one, nothing is staged or committed.
   */
  method RemoveSanCon(handle: Handle, org: MO, name: string) returns (removed: Option<MO>)
    modifies handle
    ensures removed == SanConOf(old(handle.store), org, name)
    ensures removed.None? ==>
      handle.calls == old(handle.calls) && handle.store == old(handle.store)
      && handle.staged == old(handle.staged)
    ensures removed.Some? ==>
      && handle.calls == old(handle.calls) + [RemoveMoCall(removed.value), CommitCall]
      && handle.staged == []
      && handle.store == ApplyAll(old(handle.store), old(handle.staged) + [Delete(removed.value.dn)])
    ensures handle.name == old(handle.name) && handle.loggedIn == old(handle.loggedIn)
  {
    removed := None;
    var filter := NameFilter(name);
    var sanCons := handle.QueryChildren(Some(org), VnicSanConnPolicy, filter, false);
    for i := 0 to |sanCons|
      invariant removed == None
      invariant forall j :: 0 <= j < i ==> sanCons[j].name != name
      invariant handle.calls == old(handle.calls) && handle.store == old(handle.store)
      invariant handle.staged == old(handle.staged)
    {
      if sanCons[i].name == name {
        removed := Some(sanCons[i]);
        handle.RemoveMo(sanCons[i]);
        handle.Commit();
        break;
      }
    }
  }

  /**
   * `san_con_absent(handle, params)`. With the org, the first policy the child
   * query returns under the requested name is removed and committed, and nothing
   * else is; without a match, or without the org, nothing is staged or
   * committed. The result is whether the lookup afterwards still finds the
   * policy, so a removal reports False (when nothing else was staged and every
   * DN follows its object's name).
   */
  method SanConAbsent(handle: Handle, p: SanConnParams) returns (r: bool)
    modifies handle
    ensures AbsentTarget(old(handle.store), p).None? ==>
      handle.calls == old(handle.calls) && handle.store == old(handle.store)
      && handle.staged == old(handle.staged)
    ensures AbsentTarget(old(handle.store), p).Some? ==>
      && handle.calls == old(handle.calls) + [RemoveMoCall(AbsentTarget(old(handle.store), p).value), CommitCall]
      && handle.staged == []
      && handle.store == ApplyAll(old(handle.store),
                                  old(handle.staged) + [Delete(AbsentTarget(old(handle.store), p).value.dn)])
    ensures OrgOf(old(handle.store), p.orgName).Some? ==>
      r == SanConOf(handle.store, OrgOf(old(handle.store), p.orgName).value, p.sanConName).Some?
    ensures (AbsentTarget(old(handle.store), p).Some? && old(handle.staged) == []
             && AllWellFormed(old(handle.store))) ==> !r
    ensures handle.name == old(handle.name) && handle.loggedIn == old(handle.loggedIn)
  {
    var org := GetOrg(handle, p.orgName);
    if org.Some? {
      var removed := RemoveSanCon(handle, org.value, p.sanConName);
      if removed.Some? && old(handle.staged) == [] && AllWellFormed(old(handle.store)) {
        RemovedSanConGone(old(handle.store), org.value, removed.value, p.sanConName);
      }
    }
    var still := GetSanCon(handle, org, p.sanConName);
    r := still.Some?;
  }

  /** Removing the policy `get_san_con` found leaves none of that name under the org. */
  lemma RemovedSanConGone(store: seq<MO>, org: MO, m: MO, name: string)
    requires AllWellFormed(store)
    requires SanConOf(store, org, name) == Some(m)
    ensures SanConOf(ApplyAll(store, [] + [Delete(m.dn)]), org, name).None?
  {
    ChildLookup(store, org.dn, VnicSanConnPolicy, name);
    assert ApplyAll(store, []) == store;
    PrunedChildGone(store, [], m, VnicSanConnPolicy, name);
  }
}
