/**
 * A stand-in for the part of the Cisco UCS Manager SDK (`ucsmsdk`) that the
 * modules call: managed objects and their distinguished names, the equality
 * filter on `name`, the answers to class and child queries, and a session
 * handle whose `add_mo`, `remove_mo` and `commit` stage and apply changes to
 * the endpoint's object tree. The real SDK talks to the endpoint over the
 * network; here the endpoint's tree is the handle's `store`.
 */
module UcsSdk {
  import opened Wrappers

  /** The object classes the modules create or look up. */
  datatype ClassId =
    | OrgOrg
    | VnicLanConnPolicy
    | VnicEther
    | VnicSanConnPolicy
    | VnicFc
    | VnicFcNode
    | IppoolPool
    | FabricVsan
    | FabricFcVsanPortEp

  /** Property values by attribute name (`descr`, `order`, `port_id`, ...). */
  type Props = map<string, string>

  /** A managed object: its distinguished name, class, naming property, parent and other properties. */
  datatype MO = MO(dn: string, classId: ClassId, name: string, parentDn: string, props: Props)

  function Prop(props: Props, key: string): string
  {
    if key in props then props[key] else ""
  }

  /** The relative name of an object inside its parent, by class. */
  function Rn(classId: ClassId, name: string, props: Props): (rn: string)
    ensures rn != []
  {
    match classId
    case OrgOrg => "org-" + name
    case VnicLanConnPolicy => "lan-conn-pol-" + name
    case VnicEther => "ether-" + name
    case VnicSanConnPolicy => "san-conn-pol-" + name
    case VnicFc => "fc-" + name
    case VnicFcNode => "fc-node"
    case IppoolPool => "ip-pool-" + name
    case FabricVsan => "net-" + name
    case FabricFcVsanPortEp =>
      "phys-switch-" + Prop(props, "switch_id") + "-slot-" + Prop(props, "slot_id")
      + "-port-" + Prop(props, "port_id")
  }

  function ChildDn(parentDn: string, rn: string): string
  {
    if parentDn == "" then rn else parentDn + "/" + rn
  }

  /** A class whose relative name is a fixed prefix followed by the object's name. */
  predicate NamedByName(c: ClassId)
  {
    c != VnicFcNode && c != FabricFcVsanPortEp
  }

  /** The object's DN is its parent's DN followed by its relative name. */
  predicate WellFormed(m: MO)
  {
    m.dn == ChildDn(m.parentDn, Rn(m.classId, m.name, m.props))
  }

  predicate AllWellFormed(store: seq<MO>)
  {
    forall i :: 0 <= i < |store| ==> WellFormed(store[i])
  }

  /**
   * What `Cls(parent_mo_or_dn=parent, name=..., **props)` builds in memory:
   * a well-formed object under `parent`, whose DN is strictly longer than the parent's.
   */
  function NewMo(parent: MO, classId: ClassId, name: string, props: Props): (m: MO)
    ensures WellFormed(m) && m.parentDn == parent.dn
    ensures |m.dn| > |parent.dn|
  {
    MO(ChildDn(parent.dn, Rn(classId, name, props)), classId, name, parent.dn, props)
  }

  /** `dn` lies strictly below `ancestor` in the tree. */
  predicate IsDescendantDn(dn: string, ancestor: string)
  {
    |ancestor| + 1 <= |dn| && dn[..|ancestor| + 1] == ancestor + "/"
  }

  // ---------------------------------------------------------------------------
  // Equality filters on `name`

  const EqPrefix: string := "(name, \""
  const OrgEqPrefix: string := "(name , \""
  const EqSuffix: string := "\", type=\"eq\")"

  /** `'(name, "{0}", type="eq")'.format(name)`, the child lookups' filter. */
  function NameFilter(name: string): string
  {
    EqPrefix + name + EqSuffix
  }

  /** `'(name , "{0}", type="eq")'.format(name)`, the org lookup's filter (note the space). */
  function OrgFilter(name: string): string
  {
    OrgEqPrefix + name + EqSuffix
  }

  /**
   * The name an equality filter asks for: the text between a recognised prefix
   * and the suffix, taken as it stands (no unescaping). None for any other filter.
   */
  function FilterValue(filter: string): Option<string>
  {
    if |filter| >= |OrgEqPrefix| + |EqSuffix| && filter[|filter| - |EqSuffix|..] == EqSuffix then
      if filter[..|EqPrefix|] == EqPrefix then
        Some(filter[|EqPrefix|..|filter| - |EqSuffix|])
      else if filter[..|OrgEqPrefix|] == OrgEqPrefix then
        Some(filter[|OrgEqPrefix|..|filter| - |EqSuffix|])
      else None
    else if |filter| >= |EqPrefix| + |EqSuffix| && filter[|filter| - |EqSuffix|..] == EqSuffix
         && filter[..|EqPrefix|] == EqPrefix then
      Some(filter[|EqPrefix|..|filter| - |EqSuffix|])
    else None
  }

  /** The name is embedded verbatim: the filter asks for exactly that name, whatever characters it holds. */
  lemma NameFilterRoundTrip(name: string)
    ensures FilterValue(NameFilter(name)) == Some(name)
  {
    var f := NameFilter(name);
    assert f[|f| - |EqSuffix|..] == EqSuffix;
    assert f[..|EqPrefix|] == EqPrefix;
    assert f[|EqPrefix|..|f| - |EqSuffix|] == name;
  }

  /** The org filter, with its extra space, is read the same way. */
  lemma OrgFilterRoundTrip(name: string)
    ensures FilterValue(OrgFilter(name)) == Some(name)
  {
    var f := OrgFilter(name);
    assert f[|f| - |EqSuffix|..] == EqSuffix;
    assert f[5] == ' ' && EqPrefix[5] == ',';
    assert f[..|EqPrefix|] != EqPrefix;
    assert f[..|OrgEqPrefix|] == OrgEqPrefix;
    assert f[|OrgEqPrefix|..|f| - |EqSuffix|] == name;
  }

  /** Two names give the same filter only when they are the same name. */
  lemma NameFilterInjective(a: string, b: string)
    ensures NameFilter(a) == NameFilter(b) <==> a == b
  {
    NameFilterRoundTrip(a);
    NameFilterRoundTrip(b);
  }

  // ---------------------------------------------------------------------------
  // Queries

  /** `query_classid(class_id, filter_str)` and `query_children(in_mo, class_id, filter_str, hierarchy)`. */
  datatype Query =
    | ClassQuery(classId: ClassId, filter: string)
    | ChildQuery(parentDn: string, classId: ClassId, filter: string, hierarchy: bool)

  /**
   * The endpoint's reading of a query: the class must match, the filter must ask
   * for the object's name, and a child query without `hierarchy` keeps only direct
   * children (with it, every descendant).
   */
  predicate Selects(q: Query, m: MO)
  {
    && m.classId == q.classId
    && FilterValue(q.filter) == Some(m.name)
    && (q.ChildQuery? ==>
          if q.hierarchy then IsDescendantDn(m.dn, q.parentDn) else m.parentDn == q.parentDn)
  }

  /** The objects a query returns: those it selects, in the store's order. */
  function Answer(store: seq<MO>, q: Query): (r: seq<MO>)
    ensures |r| <= |store|
    decreases |store|
  {
    if store == [] then []
    else (if Selects(q, store[0]) then [store[0]] else []) + Answer(store[1..], q)
  }

  /** An object is in a query's answer exactly when it is in the store and the query selects it. */
  lemma {:induction false} AnswerMembers(store: seq<MO>, q: Query)
    ensures forall m :: m in Answer(store, q) <==> m in store && Selects(q, m)
    decreases |store|
  {
    if store != [] {
      AnswerMembers(store[1..], q);
      assert store == [store[0]] + store[1..];
    }
  }

  lemma {:induction false} AnswerSnoc(store: seq<MO>, m: MO, q: Query)
    ensures Answer(store + [m], q) == Answer(store, q) + (if Selects(q, m) then [m] else [])
    decreases |store|
  {
    if store == [] {
      assert ([] + [m])[1..] == [];
    } else {
      assert (store + [m])[1..] == store[1..] + [m];
      AnswerSnoc(store[1..], m, q);
    }
  }

  /** `q` selects `m` and `m` has the given name. */
  predicate Hit(q: Query, m: MO, name: string)
  {
    Selects(q, m) && m.name == name
  }

  /** The first element of `xs` named `name`: what a scan that breaks on its first match returns. */
  function FirstNamed(xs: seq<MO>, name: string): (r: Option<MO>)
    ensures r.None? <==> forall i :: 0 <= i < |xs| ==> xs[i].name != name
    ensures r.Some? ==> exists i :: 0 <= i < |xs| && xs[i] == r.value && r.value.name == name
                                    && forall j :: 0 <= j < i ==> xs[j].name != name
    decreases |xs|
  {
    if xs == [] then None
    else if xs[0].name == name then Some(xs[0])
    else
      var r := FirstNamed(xs[1..], name);
      assert r.Some? ==> exists i :: 0 <= i < |xs[1..]| && xs[1..][i] == r.value
                                     && forall j :: 0 <= j < i ==> xs[1..][j].name != name;
      assert r.Some? ==> exists i :: 1 <= i < |xs| && xs[i] == r.value
                                     && forall j :: 1 <= j < i ==> xs[j].name != name;
      r
  }

  /** The last element of `xs` named `name`: what a scan without `break` that keeps overwriting returns. */
  function LastNamed(xs: seq<MO>, name: string): (r: Option<MO>)
    ensures r.None? <==> forall i :: 0 <= i < |xs| ==> xs[i].name != name
    ensures r.Some? ==> exists i :: 0 <= i < |xs| && xs[i] == r.value && r.value.name == name
                                    && forall j :: i < j < |xs| ==> xs[j].name != name
    decreases |xs|
  {
    if xs == [] then None
    else if xs[|xs| - 1].name == name then Some(xs[|xs| - 1])
    else
      var front := xs[..|xs| - 1];
      var r := LastNamed(front, name);
      assert forall i :: 0 <= i < |front| ==> front[i] == xs[i];
      assert r.Some? ==> exists i :: 0 <= i < |xs| - 1 && xs[i] == r.value && r.value.name == name
                                     && forall j :: i < j < |xs| - 1 ==> xs[j].name != name;
      r
  }

  /** No object before position `k` of `store` is selected by `q` with the given name. */
  predicate NoHitBefore(store: seq<MO>, q: Query, name: string, k: int)
    requires k <= |store|
  {
    forall j :: 0 <= j < k ==> !Hit(q, store[j], name)
  }

  /** No object after position `k` of `store` is selected by `q` with the given name. */
  predicate NoHitAfter(store: seq<MO>, q: Query, name: string, k: int)
    requires -1 <= k
  {
    forall j :: k < j < |store| ==> !Hit(q, store[j], name)
  }

  /** Scanning past a first object without the name is scanning the rest. */
  lemma FirstNamedSkip(x: MO, rest: seq<MO>, name: string)
    requires x.name != name
    ensures FirstNamed([x] + rest, name) == FirstNamed(rest, name)
  {
    assert ([x] + rest)[0] == x && ([x] + rest)[1..] == rest;
  }

  lemma NoHitBeforeBack(store: seq<MO>, q: Query, name: string, k: int)
    requires |store| > 0 && 0 <= k < |store|
    ensures NoHitBefore(store, q, name, k + 1)
        <==> !Hit(q, store[0], name) && NoHitBefore(store[1..], q, name, k)
  {
    var tail := store[1..];
    assert forall j :: 0 <= j < |tail| ==> tail[j] == store[j + 1];
  }

  lemma LastNamedSnoc(a: seq<MO>, x: MO, name: string)
    ensures LastNamed(a + [x], name) == if x.name == name then Some(x) else LastNamed(a, name)
  {
    assert (a + [x])[|a + [x]| - 1] == x;
    assert (a + [x])[..|a + [x]| - 1] == a;
  }

  lemma NoHitAfterFront(store: seq<MO>, q: Query, name: string, k: int)
    requires |store| > 0 && -1 <= k < |store| - 1
    ensures NoHitAfter(store, q, name, k)
        <==> NoHitAfter(store[..|store| - 1], q, name, k) && !Hit(q, store[|store| - 1], name)
  {
    var front := store[..|store| - 1];
    assert forall j :: 0 <= j < |front| ==> front[j] == store[j];
  }

  /** `r` is the first object of `store` that `q` selects with the name, or None when there is none. */
  predicate IsFirstHit(store: seq<MO>, q: Query, name: string, r: Option<MO>)
  {
    && (r.None? <==> NoHitBefore(store, q, name, |store|))
    && (r.Some? ==> exists i :: 0 <= i < |store| && store[i] == r.value && Hit(q, store[i], name)
                                && NoHitBefore(store, q, name, i))
  }

  /** `r` is the last object of `store` that `q` selects with the name, or None when there is none. */
  predicate IsLastHit(store: seq<MO>, q: Query, name: string, r: Option<MO>)
  {
    && (r.None? <==> NoHitAfter(store, q, name, -1))
    && (r.Some? ==> exists i :: 0 <= i < |store| && store[i] == r.value && Hit(q, store[i], name)
                                && NoHitAfter(store, q, name, i))
  }

  lemma FirstHitHead(store: seq<MO>, q: Query, name: string)
    requires store != [] && Hit(q, store[0], name)
    ensures IsFirstHit(store, q, name, FirstNamed(Answer(store, q), name))
  {
    assert Answer(store, q) == [store[0]] + Answer(store[1..], q);
    assert NoHitBefore(store, q, name, 0);
  }

  lemma FirstHitTail(store: seq<MO>, q: Query, name: string)
    requires store != [] && !Hit(q, store[0], name)
    requires IsFirstHit(store[1..], q, name, FirstNamed(Answer(store[1..], q), name))
    ensures IsFirstHit(store, q, name, FirstNamed(Answer(store, q), name))
  {
    var x, tail := store[0], store[1..];
    var rest := Answer(tail, q);
    if Selects(q, x) {
      assert Answer(store, q) == [x] + rest;
      FirstNamedSkip(x, rest, name);
    } else {
      assert Answer(store, q) == rest;
    }
    var r := FirstNamed(rest, name);
    NoHitBeforeBack(store, q, name, |tail|);
    if r.Some? {
      var i :| 0 <= i < |tail| && tail[i] == r.value && Hit(q, tail[i], name)
               && NoHitBefore(tail, q, name, i);
      assert tail[i] == store[i + 1];
      NoHitBeforeBack(store, q, name, i);
    }
  }

  /**
   * Scanning a query's answer for the first object with a name finds the first
   * object of the whole store that the query selects and that has that name.
   */
  lemma {:induction false} FirstNamedOfAnswer(store: seq<MO>, q: Query, name: string)
    ensures IsFirstHit(store, q, name, FirstNamed(Answer(store, q), name))
    decreases |store|
  {
    if store != [] {
      if Hit(q, store[0], name) {
        FirstHitHead(store, q, name);
      } else {
        FirstNamedOfAnswer(store[1..], q, name);
        FirstHitTail(store, q, name);
      }
    }
  }

  lemma LastHitEnd(store: seq<MO>, q: Query, name: string)
    requires store != [] && Hit(q, store[|store| - 1], name)
    ensures IsLastHit(store, q, name, LastNamed(Answer(store, q), name))
  {
    var front, x := store[..|store| - 1], store[|store| - 1];
    assert store == front + [x];
    AnswerSnoc(front, x, q);
    LastNamedSnoc(Answer(front, q), x, name);
    assert NoHitAfter(store, q, name, |store| - 1);
  }

  lemma LastHitFront(store: seq<MO>, q: Query, name: string)
    requires store != [] && !Hit(q, store[|store| - 1], name)
    requires IsLastHit(store[..|store| - 1], q, name, LastNamed(Answer(store[..|store| - 1], q), name))
    ensures IsLastHit(store, q, name, LastNamed(Answer(store, q), name))
  {
    var front, x := store[..|store| - 1], store[|store| - 1];
    assert store == front + [x];
    AnswerSnoc(front, x, q);
    var a := Answer(front, q);
    if Selects(q, x) {
      LastNamedSnoc(a, x, name);
    } else {
      assert Answer(store, q) == a;
    }
    var r := LastNamed(a, name);
    NoHitAfterFront(store, q, name, -1);
    if r.Some? {
      var i :| 0 <= i < |front| && front[i] == r.value && Hit(q, front[i], name)
               && NoHitAfter(front, q, name, i);
      assert front[i] == store[i];
      NoHitAfterFront(store, q, name, i);
    }
  }

  /**
   * Scanning a query's answer for the last object with a name finds the last
   * object of the whole store that the query selects and that has that name.
   */
  lemma {:induction false} LastNamedOfAnswer(store: seq<MO>, q: Query, name: string)
    ensures IsLastHit(store, q, name, LastNamed(Answer(store, q), name))
    decreases |store|
  {
    if store != [] {
      if Hit(q, store[|store| - 1], name) {
        LastHitEnd(store, q, name);
      } else {
        LastNamedOfAnswer(store[..|store| - 1], q, name);
        LastHitFront(store, q, name);
      }
    }
  }

  /** The last named element of a concatenation: the last one of the back part, if any, else of the front. */
  lemma {:induction false} LastNamedConcat(a: seq<MO>, b: seq<MO>, name: string)
    ensures LastNamed(a + b, name) == if LastNamed(b, name).Some? then LastNamed(b, name) else LastNamed(a, name)
    decreases |b|
  {
    if b == [] {
      assert a + b == a;
    } else {
      var front, x := b[..|b| - 1], b[|b| - 1];
      assert b == front + [x];
      assert a + b == (a + front) + [x];
      LastNamedSnoc(a + front, x, name);
      LastNamedSnoc(front, x, name);
      LastNamedConcat(a, front, name);
    }
  }

  /** The part of a query's answer that one object contributes, scanned for the last hit. */
  lemma LastNamedOfOne(x: MO, q: Query, name: string)
    ensures LastNamed(if Selects(q, x) then [x] else [], name) == if Hit(q, x, name) then Some(x) else None
  {
    if Selects(q, x) {
      assert [x][..0] == [];
    }
  }

  /**
   * Overwriting or appending an object that is not a hit leaves the last hit
   * of a query where it was, unless the overwrite lands on that very hit's DN.
   */
  lemma {:induction false} UpsertKeepsLastHit(store: seq<MO>, q: Query, name: string, m: MO)
    requires !Hit(q, m, name)
    requires LastNamed(Answer(store, q), name).Some? ==> LastNamed(Answer(store, q), name).value.dn != m.dn
    ensures LastNamed(Answer(ReplaceOrAppend(store, m), q), name) == LastNamed(Answer(store, q), name)
    decreases |store|
  {
    var sel := if Selects(q, m) then [m] else [];
    LastNamedOfOne(m, q, name);
    if store == [] {
      assert Answer([m], q) == sel + Answer([], q);
      assert sel + [] == sel;
    } else {
      var x, rest := store[0], store[1..];
      var selX := if Selects(q, x) then [x] else [];
      LastNamedOfOne(x, q, name);
      var tail := LastNamed(Answer(rest, q), name);
      assert Answer(store, q) == selX + Answer(rest, q);
      LastNamedConcat(selX, Answer(rest, q), name);
      if x.dn == m.dn {
        assert ReplaceOrAppend(store, m) == [m] + rest;
        assert ([m] + rest)[1..] == rest;
        assert Answer([m] + rest, q) == sel + Answer(rest, q);
        LastNamedConcat(sel, Answer(rest, q), name);
        assert tail.None? ==> !Hit(q, x, name);
      } else {
        var r' := ReplaceOrAppend(rest, m);
        assert ReplaceOrAppend(store, m) == [x] + r';
        assert ([x] + r')[1..] == r';
        assert Answer([x] + r', q) == selX + Answer(r', q);
        UpsertKeepsLastHit(rest, q, name, m);
        LastNamedConcat(selX, Answer(r', q), name);
      }
    }
  }

  /**
   * Upserting objects that are not hits, none of them at the DN of the last
   * hit, leaves the last hit of a query unchanged.
   */
  lemma {:induction false} UpsertsKeepLastHit(store: seq<MO>, q: Query, name: string, ms: seq<MO>)
    requires forall i :: 0 <= i < |ms| ==> !Hit(q, ms[i], name)
    requires LastNamed(Answer(store, q), name).Some? ==>
      forall i :: 0 <= i < |ms| ==> ms[i].dn != LastNamed(Answer(store, q), name).value.dn
    ensures LastNamed(Answer(ApplyAll(store, Upserts(ms)), q), name) == LastNamed(Answer(store, q), name)
    decreases |ms|
  {
    if ms != [] {
      var cs := Upserts(ms);
      assert cs[0] == Upsert(ms[0]) && cs[1..] == Upserts(ms[1..]);
      UpsertKeepsLastHit(store, q, name, ms[0]);
      var s1 := ReplaceOrAppend(store, ms[0]);
      assert forall i :: 0 <= i < |ms[1..]| ==> ms[1..][i] == ms[i + 1];
      UpsertsKeepLastHit(s1, q, name, ms[1..]);
    }
  }

  /**
   * What `query_children(in_mo=parent, class_id=c, filter_str=NameFilter(name),
   * hierarchy=False)` followed by a first-match scan finds: nothing exactly when no
   * direct child of class `c` has that name, otherwise the first such child in the
   * store's order.
   */
  lemma ChildLookup(store: seq<MO>, parentDn: string, c: ClassId, name: string)
    ensures var r := FirstNamed(Answer(store, ChildQuery(parentDn, c, NameFilter(name), false)), name);
      && (r.None? <==> forall i :: 0 <= i < |store| ==>
            !(store[i].parentDn == parentDn && store[i].classId == c && store[i].name == name))
      && (r.Some? ==>
            (exists i :: 0 <= i < |store| && store[i] == r.value
               && r.value.parentDn == parentDn && r.value.classId == c && r.value.name == name
               && forall j :: 0 <= j < i ==>
                    !(store[j].parentDn == parentDn && store[j].classId == c && store[j].name == name)))
  {
    var q := ChildQuery(parentDn, c, NameFilter(name), false);
    NameFilterRoundTrip(name);
    FirstNamedOfAnswer(store, q, name);
  }

  /** Looking an object up by its exact DN: the first object with that DN. */
  function LookupDn(store: seq<MO>, dn: string): (r: Option<MO>)
    ensures r.None? <==> forall i :: 0 <= i < |store| ==> store[i].dn != dn
    ensures r.Some? ==> r.value in store && r.value.dn == dn
    decreases |store|
  {
    if store == [] then None
    else if store[0].dn == dn then Some(store[0])
    else LookupDn(store[1..], dn)
  }

  // ---------------------------------------------------------------------------
  // Staged changes and their application at commit

  /** One staged change: create or overwrite an object by DN, or delete a DN and what lies below it. */
  datatype Change = Upsert(mo: MO) | Delete(dn: string)

  /** An object built in memory together with its children, as handed to one `add_mo`. */
  datatype Tree = Tree(root: MO, children: seq<MO>)

  /** A call that changes the endpoint or the handle's staging area. */
  datatype Call = AddMoCall(tree: Tree) | RemoveMoCall(mo: MO) | CommitCall

  /** Overwrite the first object with `m`'s DN, or append `m` when there is none. */
  function ReplaceOrAppend(store: seq<MO>, m: MO): (r: seq<MO>)
    ensures m in r
    ensures forall x :: x in store && x.dn != m.dn ==> x in r
    ensures forall x :: x in r ==> x == m || x in store
    decreases |store|
  {
    if store == [] then [m]
    else if store[0].dn == m.dn then [m] + store[1..]
    else [store[0]] + ReplaceOrAppend(store[1..], m)
  }

  /** Delete the object at `dn` and every object below it. */
  function Prune(store: seq<MO>, dn: string): (r: seq<MO>)
    ensures forall x :: x in r <==> x in store && x.dn != dn && !IsDescendantDn(x.dn, dn)
    decreases |store|
  {
    if store == [] then []
    else (if store[0].dn != dn && !IsDescendantDn(store[0].dn, dn) then [store[0]] else [])
         + Prune(store[1..], dn)
  }

  function Apply(store: seq<MO>, c: Change): seq<MO>
  {
    match c
    case Upsert(m) => ReplaceOrAppend(store, m)
    case Delete(dn) => Prune(store, dn)
  }

  /** Apply staged changes in the order they were staged. */
  function ApplyAll(store: seq<MO>, cs: seq<Change>): seq<MO>
    decreases |cs|
  {
    if cs == [] then store else ApplyAll(Apply(store, cs[0]), cs[1..])
  }

  lemma {:induction false} ApplyAllAppend(store: seq<MO>, a: seq<Change>, b: seq<Change>)
    ensures ApplyAll(store, a + b) == ApplyAll(ApplyAll(store, a), b)
    decreases |a|
  {
    if a == [] {
      assert a + b == b;
    } else {
      assert (a + b)[0] == a[0] && (a + b)[1..] == a[1..] + b;
      ApplyAllAppend(Apply(store, a[0]), a[1..], b);
    }
  }

  function Upserts(ms: seq<MO>): (cs: seq<Change>)
  {
    seq(|ms|, i requires 0 <= i < |ms| => Upsert(ms[i]))
  }

  /** The changes one `add_mo(tree.root, True)` stages: the root, then its children in order. */
  function Staged(t: Tree): seq<Change>
  {
    [Upsert(t.root)] + Upserts(t.children)
  }

  /** Overwriting other DNs keeps an object in the store. */
  lemma {:induction false} UpsertsKeep(store: seq<MO>, m: MO, ms: seq<MO>)
    requires m in store
    requires forall i :: 0 <= i < |ms| ==> ms[i].dn != m.dn
    ensures m in ApplyAll(store, Upserts(ms))
    decreases |ms|
  {
    if ms != [] {
      var cs := Upserts(ms);
      assert cs[0] == Upsert(ms[0]) && cs[1..] == Upserts(ms[1..]);
      UpsertsKeep(ReplaceOrAppend(store, ms[0]), m, ms[1..]);
    }
  }

  /** Some object in `store` sits at `dn`. */
  predicate HasDn(store: seq<MO>, dn: string)
  {
    exists x :: x in store && x.dn == dn
  }

  /**
   * Applying upserts loses no DN that was there, and leaves an object at the
   * DN of every object upserted.
   */
  lemma {:induction false} UpsertsCover(store: seq<MO>, ms: seq<MO>)
    ensures forall dn :: HasDn(store, dn) ==> HasDn(ApplyAll(store, Upserts(ms)), dn)
    ensures forall i :: 0 <= i < |ms| ==> HasDn(ApplyAll(store, Upserts(ms)), ms[i].dn)
    decreases |ms|
  {
    if ms != [] {
      var cs := Upserts(ms);
      assert cs[0] == Upsert(ms[0]) && cs[1..] == Upserts(ms[1..]);
      var s1 := ReplaceOrAppend(store, ms[0]);
      forall dn | HasDn(store, dn)
        ensures HasDn(s1, dn)
      {
        var x :| x in store && x.dn == dn;
        if x.dn == ms[0].dn {
          assert ms[0] in s1;
        } else {
          assert x in s1;
        }
      }
      assert ms[0] in s1;
      assert HasDn(s1, ms[0].dn);
      UpsertsCover(s1, ms[1..]);
      forall i | 0 <= i < |ms|
        ensures HasDn(ApplyAll(store, cs), ms[i].dn)
      {
        if i > 0 {
          assert ms[i] == ms[1..][i - 1];
        }
      }
    }
  }

  /**
   * After a commit that applies an added tree last, the tree's root is in the
   * store, provided no child shares the root's DN.
   */
  lemma TreeRootCommitted(store: seq<MO>, before: seq<Change>, t: Tree)
    requires forall i :: 0 <= i < |t.children| ==> t.children[i].dn != t.root.dn
    ensures t.root in ApplyAll(store, before + Staged(t))
  {
    ApplyAllAppend(store, before, Staged(t));
    var s := ApplyAll(store, before);
    assert Staged(t)[0] == Upsert(t.root) && Staged(t)[1..] == Upserts(t.children);
    UpsertsKeep(ReplaceOrAppend(s, t.root), t.root, t.children);
  }

  /**
   * Deleting the DN of a named direct child leaves no direct child of that class
   * and name under the same parent, when every object's DN follows its name.
   */
  lemma PrunedChildGone(store: seq<MO>, before: seq<Change>, m: MO, c: ClassId, name: string)
    requires AllWellFormed(ApplyAll(store, before)) && WellFormed(m)
    requires NamedByName(c) && m.classId == c && m.name == name
    ensures FirstNamed(Answer(ApplyAll(store, before + [Delete(m.dn)]),
                              ChildQuery(m.parentDn, c, NameFilter(name), false)), name).None?
  {
    ApplyAllAppend(store, before, [Delete(m.dn)]);
    var s := ApplyAll(store, before);
    assert ApplyAll(s, [Delete(m.dn)]) == Prune(s, m.dn);
    var q := ChildQuery(m.parentDn, c, NameFilter(name), false);
    NameFilterRoundTrip(name);
    forall x | x in s && x.dn != m.dn
      ensures !Hit(q, x, name)
    {
      var i :| 0 <= i < |s| && s[i] == x;
      assert WellFormed(s[i]);
    }
    AnswerMembers(Prune(s, m.dn), q);
  }

  // ---------------------------------------------------------------------------
  // The session handle

  /**
   * `UcsHandle`: the endpoint's address and credentials, the system name learned
   * at login, the endpoint's object tree, the changes staged but not yet
   * committed, and the log of calls that stage or commit changes.
   */
  class Handle {
    const ip: string
    const username: string
    const password: string
    const port: int
    const secure: bool
    var name: string
    var loggedIn: bool
    var store: seq<MO>
    var staged: seq<Change>
    var calls: seq<Call>

    /** `UcsHandle(ip, username, password, secure=..., port=...)`: no traffic yet. */
    constructor (ip: string, username: string, password: string, secure: bool, port: int,
                 remote: seq<MO>)
      ensures this.ip == ip && this.username == username && this.password == password
      ensures this.secure == secure && this.port == port
      ensures name == "" && !loggedIn
      ensures store == remote && staged == [] && calls == []
    {
      this.ip := ip;
      this.username := username;
      this.password := password;
      this.secure := secure;
      this.port := port;
      name := "";
      loggedIn := false;
      store := remote;
      staged := [];
      calls := [];
    }

    /** `login()`: succeeds or fails as the endpoint decides; on success the endpoint reports its system name. */
    method Login() returns (ok: bool)
      modifies this
      ensures loggedIn == (ok || old(loggedIn))
      ensures !ok ==> name == old(name)
      ensures store == old(store) && staged == old(staged) && calls == old(calls)
    {
      ok := *;
      if ok {
        var reported: string := *;
        name := reported;
        loggedIn := true;
      }
    }

    /** `query_classid(class_id, filter_str=filter)`. */
    method QueryClassId(classId: ClassId, filter: string) returns (rs: seq<MO>)
      ensures rs == Answer(store, ClassQuery(classId, filter))
    {
      rs := Answer(store, ClassQuery(classId, filter));
    }

    /**
     * `query_children(in_mo=inMo, class_id=..., filter_str=..., hierarchy=...)`.
     * With `in_mo=None` the SDK's answer is not modelled: any sequence may come back.
     */
    method QueryChildren(inMo: Option<MO>, classId: ClassId, filter: string, hierarchy: bool)
      returns (rs: seq<MO>)
      ensures inMo.Some? ==> rs == Answer(store, ChildQuery(inMo.value.dn, classId, filter, hierarchy))
    {
      if inMo.Some? {
        rs := Answer(store, ChildQuery(inMo.value.dn, classId, filter, hierarchy));
      } else {
        rs := *;
      }
    }

    /** `query_dn(dn)`: the object at that DN, or None. */
    method QueryDn(dn: string) returns (r: Option<MO>)
      ensures r == LookupDn(store, dn)
    {
      r := LookupDn(store, dn);
    }

    /** `add_mo(tree.root, True)`: stage the object and its in-memory children. */
    method AddMo(t: Tree)
      modifies this
      ensures staged == old(staged) + Staged(t)
      ensures calls == old(calls) + [AddMoCall(t)]
      ensures store == old(store) && name == old(name) && loggedIn == old(loggedIn)
    {
      staged := staged + Staged(t);
      calls := calls + [AddMoCall(t)];
    }

    /** `remove_mo(m)`: stage the deletion of `m` and what lies below it. */
    method RemoveMo(m: MO)
      modifies this
      ensures staged == old(staged) + [Delete(m.dn)]
      ensures calls == old(calls) + [RemoveMoCall(m)]
      ensures store == old(store) && name == old(name) && loggedIn == old(loggedIn)
    {
      staged := staged + [Delete(m.dn)];
      calls := calls + [RemoveMoCall(m)];
    }

    /** `commit()`: apply every staged change to the endpoint's tree, in order. */
    method Commit()
      modifies this
      ensures store == ApplyAll(old(store), old(staged))
      ensures staged == []
      ensures calls == old(calls) + [CommitCall]
      ensures name == old(name) && loggedIn == old(loggedIn)
    {
      store := ApplyAll(store, staged);
      staged := [];
      calls := calls + [CommitCall];
    }
  }
}
