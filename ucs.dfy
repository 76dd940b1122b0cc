/**
 * `library/ucs.py`: the process-wide cache of open sessions (`HANDLE_LIST`
 * and `get_handle`), the base argument spec every module extends, and the
 * lookup of an organisation by name.
 */
module Ucs {
  import opened Wrappers
  import opened UcsSdk

  /** A failed `login()`; the source reports it through `fail_json`, which ends the module. */
  datatype ConnectError = LoginFailed(host: string)

  /** A cached handle answers for `host` when its address or its system name is `host`. */
  predicate Serves(h: Handle, host: string)
    reads h
  {
    h.ip == host || h.name == host
  }

  /** Position of the first handle in `hs` that answers for `host`; `|hs|` when none does. */
  function FirstServing(hs: seq<Handle>, host: string): (k: nat)
    reads hs
    ensures k <= |hs|
    ensures forall j :: 0 <= j < k ==> !Serves(hs[j], host)
    ensures k < |hs| ==> Serves(hs[k], host)
    decreases |hs|
  {
    if hs == [] then 0
    else if Serves(hs[0], host) then 0
    else 1 + FirstServing(hs[1..], host)
  }

  /** `HANDLE_LIST`, with a count of the login handshakes performed for it. */
  class Registry {
    var handles: seq<Handle>
    ghost var logins: nat

    /** `HANDLE_LIST = []` at import time. */
    constructor ()
      ensures handles == [] && logins == 0
    {
      handles := [];
      logins := 0;
    }

    /**
     * `get_handle(module)`. A cached handle that answers for `hostname` is
     * returned as it is: the first one in list order, with no new handle and no
     * login. Otherwise a new handle is built and logged in; only a successful
     * login appends it, at the end. The list is never shortened or reordered.
     */
    method GetHandle(hostname: string, username: string, password: string, port: int, secure: bool,
                     remote: seq<MO>)
      returns (r: Result<Handle, ConnectError>)
      modifies this
      ensures old(handles) <= handles && |handles| <= |old(handles)| + 1
      ensures old(FirstServing(handles, hostname)) < |old(handles)| ==>
        && r == Ok(old(handles)[old(FirstServing(handles, hostname))])
        && handles == old(handles)
        && logins == old(logins)
      ensures old(FirstServing(handles, hostname)) == |old(handles)| ==>
        && logins == old(logins) + 1
        && match r
           case Ok(h) =>
             && fresh(h) && h.loggedIn && handles == old(handles) + [h]
             && h.ip == hostname && h.username == username && h.password == password
             && h.port == port && h.secure == secure
             && h.store == remote && h.staged == [] && h.calls == []
           case Err(e) =>
             handles == old(handles) && e == LoginFailed(hostname)
    {
      var list := handles;
      for i := 0 to |list|
        invariant forall j :: 0 <= j < i ==> !Serves(list[j], hostname)
      {
        if list[i].ip == hostname || list[i].name == hostname {
          r := Ok(list[i]);
          return;
        }
      }
      var h := new Handle(hostname, username, password, secure, port, remote);
      var ok := h.Login();
      logins := logins + 1;
      if ok {
        handles := handles + [h];
        r := Ok(h);
      } else {
        r := Err(LoginFailed(hostname));
      }
    }
  }

  /**
   * Two `get_handle` calls for the same endpoint in a row: once the first has
   * succeeded, the second returns the same handle, and at most one login
   * handshake was performed between them.
   */
  method AcquireTwice(reg: Registry, hostname: string, username: string, password: string,
                      port: int, secure: bool, remote: seq<MO>)
    returns (first: Result<Handle, ConnectError>, second: Result<Handle, ConnectError>)
    modifies reg
    ensures first.Ok? ==> second == first
    ensures first.Ok? ==> reg.logins <= old(reg.logins) + 1
    ensures first.Ok? ==> reg.handles == old(reg.handles) || reg.handles == old(reg.handles) + [first.value]
  {
    ghost var before := reg.handles;
    first := reg.GetHandle(hostname, username, password, port, secure, remote);
    if first.Ok? && FirstServing(before, hostname) == |before| {
      FirstServingAppend(before, first.value, hostname);
    }
    second := reg.GetHandle(hostname, username, password, port, secure, remote);
  }

  /** A handle appended after handles that do not answer for `host` is the first that does, if it does. */
  lemma FirstServingAppend(hs: seq<Handle>, h: Handle, host: string)
    requires FirstServing(hs, host) == |hs| && Serves(h, host)
    ensures FirstServing(hs + [h], host) == |hs|
  {
    assert (hs + [h])[|hs|] == h;
  }

  // ---------------------------------------------------------------------------
  // Argument spec

  /** A value in an option's spec: a string, an integer or a boolean. */
  datatype Value = Str(s: string) | Int(i: int) | Bool(b: bool)

  /** One option's spec (`type`, `default`, `required`, ...). */
  type OptionSpec = map<string, Value>

  /** An argument spec: option name to its spec. */
  type ArgSpec = map<string, OptionSpec>

  /** `os.environ.get(key, default)`: the variable's text when it is set. */
  function EnvGet(env: map<string, string>, key: string, default: Value): Value
  {
    if key in env then Str(env[key]) else default
  }

  const BaseKeys: set<string> := {"hostname", "username", "password", "port", "secure"}

  /**
   * `get_ucs_argument_spec(**kwargs)`: the five connection options, whose
   * defaults come from the environment (`env`) or from fixed fallbacks, updated
   * with the caller's options, which win on a shared key.
   */
  method GetUcsArgumentSpec(env: map<string, string>, kwargs: ArgSpec) returns (spec: ArgSpec)
    ensures spec.Keys == BaseKeys + kwargs.Keys
    ensures forall k :: k in kwargs ==> spec[k] == kwargs[k]
    ensures "hostname" !in kwargs ==>
      spec["hostname"] == map["type" := Str("str"), "default" := EnvGet(env, "UCSM_IP", Str("localhost"))]
    ensures "username" !in kwargs ==>
      spec["username"] == map["type" := Str("str"), "default" := EnvGet(env, "UCSM_USER", Str("admin"))]
    ensures "password" !in kwargs ==>
      spec["password"] == map["type" := Str("str"), "default" := EnvGet(env, "UCSM_PASSWORD", Str("password"))]
    ensures "port" !in kwargs ==>
      spec["port"] == map["required" := Bool(false), "type" := Str("int"), "default" := EnvGet(env, "UCSM_PORT", Int(443))]
    ensures "secure" !in kwargs ==>
      spec["secure"] == map["required" := Bool(false), "type" := Str("bool"), "default" := EnvGet(env, "UCSM_SECURE", Str("true"))]
  {
    var ucsmIp := EnvGet(env, "UCSM_IP", Str("localhost"));
    var ucsmUser := EnvGet(env, "UCSM_USER", Str("admin"));
    var ucsmPassword := EnvGet(env, "UCSM_PASSWORD", Str("password"));
    var ucsmPort := EnvGet(env, "UCSM_PORT", Int(443));
    var ucsmSecure := EnvGet(env, "UCSM_SECURE", Str("true"));
    spec := map[
      "hostname" := map["type" := Str("str"), "default" := ucsmIp],
      "username" := map["type" := Str("str"), "default" := ucsmUser],
      "password" := map["type" := Str("str"), "default" := ucsmPassword],
      "port" := map["required" := Bool(false), "type" := Str("int"), "default" := ucsmPort],
      "secure" := map["required" := Bool(false), "type" := Str("bool"), "default" := ucsmSecure]
    ];
    spec := spec + kwargs;
  }

  /**
   * A list option declared without `required` and left unset arrives in
   * `params` as `None`; a `for` loop over it raises `TypeError`.
   */
  datatype ParamError = NotIterable(option: string)

  // ---------------------------------------------------------------------------
  // Organisation lookup

  /** The org `get_org` settles on: the last org in the class query's answer named `orgName`. */
  function OrgOf(store: seq<MO>, orgName: string): Option<MO>
  {
    LastNamed(Answer(store, ClassQuery(OrgOrg, OrgFilter(orgName))), orgName)
  }

  /**
   * `get_org(handle, org_name)`: a whole-class query for orgs with the filter
   * `(name , "<org_name>", type="eq")`, then a scan without `break`, so the
   * last match wins.
   */
  method GetOrg(handle: Handle, orgName: string) returns (r: Option<MO>)
    ensures r == OrgOf(handle.store, orgName)
  {
    r := None;
    var filter := OrgFilter(orgName);
    var orgs := handle.QueryClassId(OrgOrg, filter);
    for i := 0 to |orgs|
      invariant r == LastNamed(orgs[..i], orgName)
    {
      if orgs[i].name == orgName {
        r := Some(orgs[i]);
      }
      assert orgs[..i + 1] == orgs[..i] + [orgs[i]];
      LastNamedSnoc(orgs[..i], orgs[i], orgName);
    }
    assert orgs[..|orgs|] == orgs;
  }

  /**
   * What `get_org` finds, in terms of the endpoint's tree: None exactly when no
   * org anywhere is named `orgName`; otherwise an org with that name, and no
   * later org in the tree's order has it.
   */
  lemma OrgLookup(store: seq<MO>, orgName: string)
    ensures OrgOf(store, orgName).None? <==>
      forall i :: 0 <= i < |store| ==> !(store[i].classId == OrgOrg && store[i].name == orgName)
    ensures OrgOf(store, orgName).Some? ==>
      (exists i :: 0 <= i < |store| && store[i] == OrgOf(store, orgName).value
         && store[i].classId == OrgOrg && store[i].name == orgName
         && forall j :: i < j < |store| ==> !(store[j].classId == OrgOrg && store[j].name == orgName))
  {
    OrgFilterRoundTrip(orgName);
    LastNamedOfAnswer(store, ClassQuery(OrgOrg, OrgFilter(orgName)), orgName);
  }
}
