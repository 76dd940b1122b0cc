# ansible-ucs reconcilers, modelled in Dafny

This project models the Ansible modules of `ansible-ucs` that drive a Cisco
UCS Manager through the `ucsmsdk` Python SDK:

- the shared helpers of `library/ucs.py`:
  - the process-wide session cache `HANDLE_LIST` and `get_handle`;
  - the base argument spec `get_ucs_argument_spec`;
  - the organisation lookup `get_org`;
- the LAN connection policy reconcilers (`get_vcon`, `vcon_present`,
  `vcon_absent`) and their SAN twins (`get_san_con`, `san_con_present`,
  `san_con_absent`);
- the VSAN port assignment (`get_vsan`, `assign_ports`);
- the IP pool lookup `get_ip_pool`, and the part of that file's
  `vcon_present` that can run.

The SDK itself is not part of this model. It is replaced by a stand-in in
module `UcsSdk`, whose class `Handle` holds:

- `store`: the endpoint's object tree, a sequence of managed objects (MOs), each
  with its DN, class, name, parent DN and properties;
- `staged`: the changes staged by `add_mo`/`remove_mo` and not yet committed;
- `calls`: the log of `add_mo`, `remove_mo` and `commit` calls.

Queries read `store` and change nothing. The server is taken to read the
equality filters the modules build (`(name, "<v>", type="eq")`, and
`(name , "<v>", type="eq")` for orgs) as "the name is exactly `<v>`". `commit`
applies the staged changes in order:

- an added object overwrites the object with its DN, or is appended;
- a removed DN disappears together with everything below it.

The relative names used to build DNs (`org-`, `lan-conn-pol-`, `ether-`,
`san-conn-pol-`, `fc-`, `fc-node`, `net-`, `phys-switch-<s>-slot-<n>-port-<p>`)
follow the SDK's conventions. They serve as labels for the tree, and no
property proved here depends on the SDK agreeing with them, apart from the two
"removed object is gone" lemmas, which assume that every DN is built this way
(`AllWellFormed`).

Module layout, one file per source file, plus two support files:
`wrappers.dfy` (Option, Result), `pystr.dfy` (`str.split` and `str()` of an
integer), `ucsmsdk.dfy` (the SDK stand-in), `ucs.dfy`, `ucs_lan_conn.dfy`,
`ucs_san_conn.dfy`, `ucs_vsan_assign.dfy`, `ip_pool.dfy`.

The model follows the code, including these behaviours, which a reader might
not expect from the modules' names and documentation:

- `vcon_present`/`san_con_present` never look for an existing policy before
  staging it. They always `add_mo` and `commit`, and they report True on every
  call where the org exists and the list of vNICs or vHBAs is given: two calls
  in a row give True and True, not
  "changed" then "unchanged" (`UcsLanConn.PresentTwice`).
- `vcon_absent`/`san_con_absent` return whether the policy is still there
  afterwards, so a removal returns False, and the result is True only if a
  policy of that name is still found.
- The filters embed the name verbatim, with no escaping or rejection of `"`
  or `)`.
- `get_org` has no `break`, so the last matching org wins, not the first
  (`Ucs.OrgLookup`).
- Only a successful login adds a session to the cache. A failed login is an
  error result here, where the source calls `fail_json`.
- The `vcon_present` of `ip_pool.py` does not create an IP pool. It is a copy
  of the LAN code using names the file never binds, so with an existing org it
  raises `NameError`.
- `vnics` and `hbas` are not required options. When one is unset, the
  present function's loop over it raises `TypeError` once the org is found,
  before anything is staged (`ParamError`), as `assign_ports` does with an unset
  `ports`.
- `assign_ports` has no absent counterpart. It adds every port, commits, and
  returns True even for an empty list.

## Model

| member | source | states |
|---|---|---|
| Ucs.Registry.constructor | library/ucs.py:8 | the session cache starts empty, with no login performed |
| Ucs.FirstServing | library/ucs.py:21-23 | the index of the first cached handle whose address or system name is the requested host, and no earlier one matches; the list length when none matches |
| Ucs.Registry.GetHandle | library/ucs.py:10-34 | a cached handle serving the host is returned as is: the first such handle, with no login and the cache unchanged; otherwise exactly one login happens; a new handle with the given address, credentials, port and security flag is appended only when its login succeeds; a failed login returns LoginFailed and leaves the cache unchanged; the cache only ever grows at its end, by at most one |
| Ucs.AcquireTwice | library/ucs.py:21-34 | two acquisitions for one host in a row: once the first succeeds, the second returns the very same handle, at most one login happened in total, and the cache grew by at most that handle |
| Ucs.GetUcsArgumentSpec | library/ucs.py:36-72 | the spec has exactly the five connection options plus the caller's options; a caller's option replaces the base one; each base option keeps its type, its required flag and its default, taken from its environment variable when set and otherwise `localhost`, `admin`, `password`, 443 and `"true"` |
| Ucs.GetOrg | library/ucs.py:74-84 | the result is the last org in the query's answer whose name is the requested one |
| Ucs.OrgLookup | library/ucs.py:77-84 | no org is found exactly when no org in the tree has that name; otherwise the org found has that name and no later org in the tree does |
| UcsSdk.NameFilterRoundTrip | library/ucs_lan_conn.py:81 | the child lookups' filter, read back by the stand-in endpoint, asks for exactly the given name |
| UcsSdk.NameFilterInjective | library/ucs_lan_conn.py:81 | two names give the same filter if and only if they are equal |
| UcsSdk.OrgFilterRoundTrip | library/ucs.py:78 | the org filter, with its extra space, asks for exactly the given name |
| UcsSdk.NewMo | library/ucs_lan_conn.py:100-102 | an object built under a parent is well formed, records the parent's DN, and has a strictly longer DN than its parent |
| UcsSdk.Answer | library/ucs_lan_conn.py:82-85 | a query's answer is no longer than the tree |
| UcsSdk.AnswerMembers | library/ucs_lan_conn.py:82-85 | an object is in a query's answer exactly when it is in the tree and the query selects it (class, filter name, and direct or any-depth parent) |
| UcsSdk.FirstNamed | library/ucs_lan_conn.py:86-89 | the first object with the requested name in a result list, with no earlier one; none exactly when no object has that name |
| UcsSdk.LastNamed | library/ucs.py:80-82 | the last object with the requested name in a result list, with no later one; none exactly when no object has that name |
| UcsSdk.FirstNamedOfAnswer | library/ucs_lan_conn.py:86-89 | the first named object of a query's answer is the first object of the tree the query selects under that name |
| UcsSdk.LastNamedOfAnswer | library/ucs.py:80-82 | the last named object of a query's answer is the last object of the tree the query selects under that name |
| UcsSdk.ChildLookup | library/ucs_lan_conn.py:77-91 | a first-match child lookup by name finds nothing exactly when no direct child of that class has the name; otherwise it finds the first such child in tree order |
| UcsSdk.LookupDn | library/ucs_vsan_assign.py:59 | `query_dn` finds nothing exactly when no object has the DN; otherwise an object of the tree with that DN |
| UcsSdk.ReplaceOrAppend | library/ucs_lan_conn.py:112 | an added object is in the tree after commit, every object with another DN stays, and nothing else appears |
| UcsSdk.Prune | library/ucs_lan_conn.py:136 | after a removal, an object remains exactly when it was there and its DN is neither the removed DN nor below it |
| UcsSdk.TreeRootCommitted | library/ucs_lan_conn.py:112-113 | after the commit of an added subtree, its root is in the tree, whatever was staged before |
| UcsSdk.UpsertsKeep | library/ucs_lan_conn.py:112-113 | objects added after an object, under other DNs, do not displace it |
| UcsSdk.UpsertsCover | library/ucs_vsan_assign.py:80-82 | committing added objects loses no DN and leaves an object at the DN of every added object |
| UcsSdk.PrunedChildGone | library/ucs_lan_conn.py:136-137 | after removing a named child and committing, no direct child of that class and name remains under its parent |
| UcsSdk.UpsertKeepsLastHit | library/ucs.py:80-82 | overwriting or appending an object that is not a hit of a query leaves the query's last hit unchanged, unless it overwrites that hit's DN |
| UcsSdk.UpsertsKeepLastHit | library/ucs.py:80-82 | committing a batch of added objects that are not hits, none at the last hit's DN, leaves the last hit unchanged |
| UcsSdk.ApplyAllAppend | library/ucs_lan_conn.py:113 | committing two batches of changes in turn is committing them as one batch |
| UcsSdk.Handle.constructor | library/ucs.py:25-26 | a new handle keeps address, credentials, port and security flag, is not logged in, and has staged and called nothing |
| UcsSdk.Handle.Login | library/ucs.py:29 | a login changes only the logged-in flag and the system name; a failed one leaves the name |
| UcsSdk.Handle.QueryClassId | library/ucs.py:79 | a class query returns the answer the tree gives to it |
| UcsSdk.Handle.QueryChildren | library/ucs_lan_conn.py:82-85 | a children query under an object returns the tree's answer to it |
| UcsSdk.Handle.QueryDn | library/ucs_vsan_assign.py:59 | a DN query returns the object at that DN |
| UcsSdk.Handle.AddMo | library/ucs_lan_conn.py:112 | an add stages the root and then its children, logs the call, and leaves the tree alone |
| UcsSdk.Handle.RemoveMo | library/ucs_lan_conn.py:136 | a removal stages the deletion of the object's DN, logs the call, and leaves the tree alone |
| UcsSdk.Handle.Commit | library/ucs_lan_conn.py:113 | a commit applies every staged change in order and empties the staging area |
| PyStr.Split | library/ucs_vsan_assign.py:72 | `split` gives at least one piece and no piece holds the separator |
| PyStr.JoinSplit | library/ucs_vsan_assign.py:72 | joining the pieces of a split with the separator gives the string back |
| PyStr.SplitJoin | library/ucs_vsan_assign.py:72 | splitting pieces joined with a separator none of them holds gives the pieces back |
| PyStr.SplitNoSep | library/ucs_vsan_assign.py:72 | a string without the separator splits into itself alone |
| PyStr.SplitAtSep | library/ucs_vsan_assign.py:72 | a split cuts at the first separator |
| PyStr.NatToString | library/ucs_lan_conn.py:108 | `str()` of a natural number is a non-empty string of digits |
| PyStr.DigitsValueOfNatToString | library/ucs_lan_conn.py:108 | the decimal digits of a natural number read back as that number |
| PyStr.IntToStringRoundTrip | library/ucs_lan_conn.py:108 | `str()` of any integer, negative ones included, parses back to that integer |
| PyStr.IntToStringInjective | library/ucs_lan_conn.py:108 | two integers have the same `str()` only when they are equal |
| UcsLanConn.PolicyTreeShape | library/ucs_lan_conn.py:100-112 | the subtree handed to `add_mo` is the policy under the org with the requested name and description, and one `VnicEther` child per entry of `vnics`, in list order, with its name, template and adapter policy and an order string that reads back as its order |
| UcsLanConn.BuildPolicyTree | library/ucs_lan_conn.py:101-110 | the loop builds exactly the policy subtree whose shape PolicyTreeShape states; with `vnics` unset it raises the `TypeError` of iterating over None |
| UcsLanConn.GetVcon | library/ucs_lan_conn.py:77-91 | with an org, the result is the first direct child LAN connection policy of that name in the answer; any result carries the requested name |
| UcsLanConn.VconPresent | library/ucs_lan_conn.py:94-120 | without the org: False, nothing staged or committed; with the org and `vnics` unset: the `TypeError`, nothing staged or committed; otherwise exactly one `add_mo` of the policy subtree and one `commit`, no existence check, the tree is the old one with the staged changes and the subtree applied, and the result is True, from the lookup afterwards |
| UcsLanConn.PresentFinds | library/ucs_lan_conn.py:112-117 | after the commit, the lookup finds the policy, so the no-value fall-through is never taken |
| UcsLanConn.RemoveVcon | library/ucs_lan_conn.py:128-138 | the scan removes the policy `get_vcon` would find under the org, with one `remove_mo` and one `commit`, and makes no call when there is none |
| UcsLanConn.VconAbsent | library/ucs_lan_conn.py:123-145 | with a matching policy under the org: exactly one `remove_mo` of the first match and one `commit`; otherwise no call at all; the result is whether the lookup afterwards still finds the policy, False after a removal |
| UcsLanConn.RemovedVconGone | library/ucs_lan_conn.py:134-140 | once the found policy is removed and committed, the lookup finds no policy of that name under the org |
| UcsLanConn.PresentTwice | library/ucs_lan_conn.py:94-120 | two `vcon_present` calls with an existing org and `vnics` given both report True, and the calls are exactly `add_mo` of the same policy subtree, `commit`, `add_mo` of it again, `commit`; with `vnics` unset both raise the `TypeError` and nothing is staged or committed |
| UcsLanConn.OrgSurvivesPresent | library/ucs_lan_conn.py:97-113 | after the commit of `vcon_present`, `get_org` settles on the same org as before |
| UcsSanConn.PolicyTreeShape | library/ucs_san_conn.py:101-115 | the subtree is the policy under the org with name and description, then one `VnicFcNode` carrying the WWNN pool, then one `VnicFc` per entry of `hbas`, in list order, with name, template, adapter policy and an order string that reads back as its order |
| UcsSanConn.ChildrenShape | library/ucs_san_conn.py:106-113 | the policy's children are the FC node with the WWNN pool first, then one `VnicFc` per entry of `hbas` in list order, none at the policy's DN |
| UcsSanConn.FcMosShape | library/ucs_san_conn.py:108-113 | each vHBA is a `VnicFc` under the policy with its entry's name, template and adapter policy, and an order string that reads back as its order |
| UcsSanConn.BuildPolicyTree | library/ucs_san_conn.py:101-114 | the construction builds exactly the policy subtree whose shape PolicyTreeShape states; with `hbas` unset it raises the `TypeError` of iterating over None |
| UcsSanConn.GetSanCon | library/ucs_san_conn.py:80-94 | with an org, the result is the first direct child SAN connection policy of that name; any result carries the requested name |
| UcsSanConn.SanConPresent | library/ucs_san_conn.py:96-123 | without the org: False, nothing staged or committed; with the org and `hbas` unset: the `TypeError`, nothing staged or committed; otherwise one `add_mo` of the subtree and one `commit`, no existence check, the tree after the commit, and a result of True |
| UcsSanConn.PresentFinds | library/ucs_san_conn.py:115-120 | after the commit, the lookup finds the SAN policy |
| UcsSanConn.RemoveSanCon | library/ucs_san_conn.py:130-140 | the scan removes the policy `get_san_con` would find under the org, with one `remove_mo` and one `commit`, and makes no call when there is none |
| UcsSanConn.SanConAbsent | library/ucs_san_conn.py:125-147 | with a match: one `remove_mo` of the first match and one `commit`; otherwise no call; the result is whether the policy is still found, False after a removal |
| UcsSanConn.RemovedSanConGone | library/ucs_san_conn.py:136-142 | once the found SAN policy is removed and committed, the lookup finds none of that name |
| UcsVsanAssign.VsanDnInjective | library/ucs_vsan_assign.py:58 | for switch ids without `/`, two (switch, VSAN id) pairs give the same DN if and only if they are equal |
| UcsVsanAssign.GetVsan | library/ucs_vsan_assign.py:54-60 | the result is the object at `fabric/san/<switch>/net-<vsan>`, and none exactly when the tree has no object there |
| UcsVsanAssign.ParsePortIff | library/ucs_vsan_assign.py:72 | a port unpacks into (slot, port) if and only if it is slot, one `/`, port, with no other `/` |
| UcsVsanAssign.FirstBadPort | library/ucs_vsan_assign.py:71-72 | the index of the first port that does not unpack, every earlier port unpacks; the list length when all do |
| UcsVsanAssign.PortEpsShape | library/ucs_vsan_assign.py:73-79 | each port endpoint sits under the VSAN with an empty name, with auto-negotiation `yes`, admin state `enabled`, the requested switch, and a slot and port that rejoin to its list entry |
| UcsVsanAssign.StagePorts | library/ucs_vsan_assign.py:71-80 | the loop adds one endpoint per port, in order, up to the first port that does not unpack, and commits nothing |
| UcsVsanAssign.AssignPorts | library/ucs_vsan_assign.py:62-85 | without the VSAN: False and no call; with it and no port list: an error and no call; a malformed port: an error after the earlier ports' endpoints were added, with no commit; otherwise one add per port and one commit, the tree updated with all endpoints, and True, also for an empty list |
| UcsVsanAssign.PortsCommitted | library/ucs_vsan_assign.py:80-83 | after the commit, the tree holds an object at the DN of every port's endpoint |
| IpPool.GetIpPool | library/ip_pool.py:108-122 | with an org, the result is the first direct child IP pool of that name; any result carries the requested name |
| IpPool.VconPresent | library/ip_pool.py:125-151 | False exactly when the org is missing, with nothing staged or committed; with the org, the unbound-name error, raised before anything is staged |

## Left out

- The SDK (`ucsmsdk`): the transport, XML encoding, sessions on the wire and
  the server's own rules are not modelled. `UcsSdk` is a stand-in whose commit
  applies changes in order. Nothing here claims that the real commit is atomic
  or how `modify_present=True` merges properties into an existing object: an
  added object simply replaces the one at its DN.
- Login: whether it succeeds and the system name the endpoint reports are
  left open (any outcome). The network and timeouts are not modelled.
- `Ucs.Registry.GetHandle`: the `fail_json` call on a failed login, which ends
  the module, is an error result here. `bool(secure)` is the identity,
  because Ansible has already converted the option to a boolean.
- `Ucs.GetUcsArgumentSpec`: the environment is a parameter. An environment
  value stays a string even for `port`, as `os.environ.get` returns it, and
  Ansible's later type conversion is not modelled.
- `AnsibleModule`, `main()`, `exit_json` and the module documentation strings
  are not modelled. `library/ucs_service_profile_template.py` is not part of
  this model: it only declares options and dispatches to functions that no
  file defines.
- `query_children` with `in_mo=None`: the result is left unconstrained. In
  the absent functions the final lookup runs even with a missing org, so
  their result is stated only when the org exists.
- `UcsLanConn.VconAbsent`, `UcsSanConn.SanConAbsent`: the result after a
  removal is proved False only when nothing else was staged before the call
  and every DN in the tree follows its object's name.
- `UcsLanConn.PresentTwice`: the second call's result is proved only when
  nothing was staged before the first call.
- Filters: the stand-in endpoint reads the name back verbatim from the two
  filter forms the modules build, whatever characters it holds (`FilterValue`).
  The modules embed the name unescaped, so a name holding `"` or `)` breaks
  the filter grammar, and what the real endpoint then answers is not modelled.
  For such names, the lookup lemmas (`UcsSdk.ChildLookup`, `Ucs.OrgLookup`,
  `UcsLanConn.PresentFinds`, `UcsLanConn.RemovedVconGone`,
  `UcsSanConn.PresentFinds`, `UcsSanConn.RemovedSanConGone`) hold only under
  this verbatim reading.
- `lan_con_descr`, `san_con_descr` and `wwnn_pool` are strings here. When
  unset, the source hands `None` to the SDK constructors, and what the SDK
  makes of it is not modelled.
- `vnics[i]['order']` and `hbas[i]['order']` are integers here; `str()` of
  other Python values is not modelled.
- `NamingId.IppoolPool` in `get_ip_pool` is read as the IP pool class. Whether
  the SDK defines a constant of that spelling cannot be seen from this code.
- The `vcon_absent` of `ip_pool.py` is not modelled: it reads
  `params['lan_con_name']`, which that module's options do not define, and
  calls `get_vcon`, which that file never binds. Either way it raises before
  staging or committing anything. The org-present branch of its `vcon_present` is
  modelled only up to the `NameError`.
- `ports` entries are strings; a non-string entry, which would make `split` raise
  differently, is not modelled.
