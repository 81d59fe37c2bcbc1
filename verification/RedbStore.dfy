/**
  The redb store: flat tables keyed by org and name, scanned in key order.
 */
module RedbStore {
  import opened Options
  import opened Orders
  import opened MetaCalls

  datatype Tables = Tables(
    entries: map<Pair, Entry>,
    secrets: map<Pair, Value>,
    users: map<Pair, Value>,
    policies: map<Pair, Value>,
    products: map<Pair, Value>,
    roles: set<Pair>,
    grants: map<Pair, Grant>,
    members: set<Triple>)

  const EmptyTables := Tables(map[], map[], map[], map[], map[], {}, map[], {})

  function Table(t: Tables, kind: Kind): map<Pair, Value> {
    match kind
    case Secrets => t.secrets
    case Users => t.users
    case Policies => t.policies
    case Products => t.products
  }

  function WithTable(t: Tables, kind: Kind, rows: map<Pair, Value>): Tables {
    match kind
    case Secrets => t.(secrets := rows)
    case Users => t.(users := rows)
    case Policies => t.(policies := rows)
    case Products => t.(products := rows)
  }

  // ----- Scans --------------------------------------------------------------------------

  function OwnedBy(org: string): Pair -> bool { (k: Pair) => k.org == org }

  function MemberIs(org: string, user: string): Triple -> bool { (k: Triple) => k.org == org && k.user == user }

  function RoleIs(org: string, role: string): Triple -> bool { (k: Triple) => k.org == org && k.role == role }

  /** The keys of one org, in key order. */
  function OrgKeys(keys: set<Pair>, org: string): seq<Pair> { Filter(OwnedBy(org), SortedPairs(keys)) }

  function NamesOf(keys: seq<Pair>): seq<string> { seq(|keys|, i requires 0 <= i < |keys| => keys[i].name) }

  function RolesOf(keys: seq<Triple>): seq<string> { seq(|keys|, i requires 0 <= i < |keys| => keys[i].role) }

  function UsersOf(keys: seq<Triple>): seq<string> { seq(|keys|, i requires 0 <= i < |keys| => keys[i].user) }

  function RowsOf(keys: seq<Pair>, rows: map<Pair, Value>): seq<Listed>
    requires forall k :: k in keys ==> k in rows
  {
    seq(|keys|, i requires 0 <= i < |keys| => assert keys[i] in keys; Listed(keys[i].name, ShownOf(rows[keys[i]])))
  }

  function GrantsOf(keys: seq<Pair>, rows: map<Pair, Grant>): seq<Grant>
    requires forall k :: k in keys ==> k in rows
  {
    seq(|keys|, i requires 0 <= i < |keys| => assert keys[i] in keys; rows[keys[i]])
  }

  /** One org's rows of a table, by name. */
  function Slice<V>(rows: map<Pair, V>, org: string): map<string, V> {
    map k | k in rows && k.org == org :: k.name := rows[k]
  }

  /** The first row, in key order, with this user name. */
  function FirstUser(keys: seq<Pair>, users: map<Pair, Value>, name: string): Option<Located>
    requires forall k :: k in keys ==> k in users
  {
    if keys == [] then None
    else if keys[0].name == name then assert keys[0] in keys; Some(Located(keys[0].org, users[keys[0]]))
    else FirstUser(keys[1..], users, name)
  }

  function OrgsOf(keys: set<Pair>): set<string> { set k | k in keys :: k.org }

  function MemberOrgs(keys: set<Triple>): set<string> { set k | k in keys :: k.org }

  /** Every org that owns a row of any table. */
  function Owners(t: Tables): set<string> {
    OrgsOf(t.entries.Keys) + OrgsOf(t.secrets.Keys) + OrgsOf(t.users.Keys) + OrgsOf(t.roles)
    + OrgsOf(t.policies.Keys) + OrgsOf(t.grants.Keys) + OrgsOf(t.products.Keys) + MemberOrgs(t.members)
  }

  // ----- Calls --------------------------------------------------------------------------

  function NextEntries(entries: map<Pair, Entry>, call: Call): map<Pair, Entry> {
    match call
    case UpsertBinding(org, name, binding) =>
      var k := Pair(org, name);
      entries[k := Entry(binding, if k in entries then entries[k].config else None)]
    case SetSourceConfig(org, name, config) =>
      var k := Pair(org, name);
      if k in entries then entries[k := Entry(entries[k].binding, Some(config))] else entries
    case DeleteBinding(org, name) => entries - {Pair(org, name)}
    case _ => entries
  }

  function NextRows(kind: Kind, rows: map<Pair, Value>, call: Call): map<Pair, Value> {
    if call.Put? && call.kind == kind then rows[Pair(call.org, call.name) := call.value]
    else if call.Delete? && call.kind == kind then rows - {Pair(call.org, call.name)}
    else rows
  }

  function NextRoles(roles: set<Pair>, call: Call): set<Pair> {
    match call
    case PutRole(org, name) => roles + {Pair(org, name)}
    case DeleteRole(org, name) => roles - {Pair(org, name)}
    case _ => roles
  }

  /** `key` renders a grant as its table key. */
  function NextGrants(key: Grant -> string, grants: map<Pair, Grant>, call: Call): map<Pair, Grant> {
    match call
    case PutGrant(org, grant) => grants[Pair(org, key(grant)) := grant]
    case DeleteGrant(org, grant) => grants - {Pair(org, key(grant))}
    case _ => grants
  }

  function NextMembers(members: set<Triple>, call: Call): set<Triple> {
    match call
    case AddRoleMember(org, role, user) => members + {Triple(org, role, user)}
    case RemoveRoleMember(org, role, user) => members - {Triple(org, role, user)}
    case _ => members
  }

  /** The tables after a call. */
  function Next(key: Grant -> string, t: Tables, call: Call): Tables {
    Tables(NextEntries(t.entries, call), NextRows(Secrets, t.secrets, call), NextRows(Users, t.users, call),
           NextRows(Policies, t.policies, call), NextRows(Products, t.products, call), NextRoles(t.roles, call),
           NextGrants(key, t.grants, call), NextMembers(t.members, call))
  }

  function Answer(key: Grant -> string, t: Tables, call: Call): Reply {
    match call
    case UpsertBinding(org, name, _) =>
      Previous(if Pair(org, name) in t.entries then Some(t.entries[Pair(org, name)].binding) else None)
    case DeleteBinding(org, name) => Flag(Pair(org, name) in t.entries)
    case ListBindings(org) => Bindings(BindingsOf(Slice(t.entries, org)))
    case ListSourceConfigs(org) => Configs(ConfigsOf(Slice(t.entries, org)))
    case Get(kind, org, name) =>
      Record(if Pair(org, name) in Table(t, kind) then Some(Table(t, kind)[Pair(org, name)]) else None)
    case Delete(kind, org, name) => Flag(Pair(org, name) in Table(t, kind))
    case List(kind, org) => Listing(RowsOf(OrgKeys(Table(t, kind).Keys, org), Table(t, kind)))
    case FindUser(name) => Match(FirstUser(SortedPairs(t.users.Keys), t.users, name))
    case DeleteRole(org, name) => Flag(Pair(org, name) in t.roles)
    case ListRoles(org) => Names(NamesOf(OrgKeys(t.roles, org)))
    case DeleteGrant(org, grant) => Flag(Pair(org, key(grant)) in t.grants)
    case ListGrants(org) => Grants(GrantsOf(OrgKeys(t.grants.Keys, org), t.grants))
    case RemoveRoleMember(org, role, user) => Flag(Triple(org, role, user) in t.members)
    case ListRolesForUser(org, user) => Names(RolesOf(Filter(MemberIs(org, user), SortedTriples(t.members))))
    case ListRoleMembers(org, role) => Names(UsersOf(Filter(RoleIs(org, role), SortedTriples(t.members))))
    case ListOrgs => Names(SortedNames(Owners(t)))
    case _ => Done
  }

  function Announced(t: Tables, call: Call): seq<Change> {
    match call
    case UpsertBinding(org, name, _) => [Change(org, name, Upserted)]
    case SetSourceConfig(org, name, _) => if Pair(org, name) in t.entries then [Change(org, name, Upserted)] else []
    case DeleteBinding(org, name) => if Pair(org, name) in t.entries then [Change(org, name, Deleted)] else []
    case _ => []
  }
}
