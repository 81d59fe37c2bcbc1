/**
  The JSON-file store: one nested state per org, created by the first write to that org.
 */
module EmbeddedStore {
  import opened Options
  import opened MetaCalls

  datatype OrgState = OrgState(
    entries: map<string, Entry>,
    secrets: map<string, Value>,
    users: map<string, Value>,
    policies: map<string, Value>,
    products: map<string, Value>,
    roles: set<string>,
    grants: set<Grant>,
    members: map<string, set<string>>)

  type Orgs = map<string, OrgState>

  const EmptyOrg := OrgState(map[], map[], map[], map[], map[], {}, {}, map[])

  /** An org that was never written reads as empty. */
  function OrgOf(orgs: Orgs, org: string): OrgState { if org in orgs then orgs[org] else EmptyOrg }

  function NamedIn(o: OrgState, kind: Kind): map<string, Value> {
    match kind
    case Secrets => o.secrets
    case Users => o.users
    case Policies => o.policies
    case Products => o.products
  }

  function WithNamed(o: OrgState, kind: Kind, rows: map<string, Value>): OrgState {
    match kind
    case Secrets => o.(secrets := rows)
    case Users => o.(users := rows)
    case Policies => o.(policies := rows)
    case Products => o.(products := rows)
  }

  function WithMember(members: map<string, set<string>>, role: string, user: string): map<string, set<string>> {
    members[role := (if role in members then members[role] else {}) + {user}]
  }

  /** A role that loses its last member is dropped. */
  function WithoutMember(members: map<string, set<string>>, role: string, user: string): map<string, set<string>>
    requires role in members
  {
    if members[role] - {user} == {} then members - {role} else members[role := members[role] - {user}]
  }

  /** The first org, in sorted order, that has a user of this name. */
  function FirstWithUser(orgs: Orgs, sorted: seq<string>, name: string): Option<Located>
    requires forall org :: org in sorted ==> org in orgs
  {
    if sorted == [] then None
    else if name in orgs[sorted[0]].users then Some(Located(sorted[0], orgs[sorted[0]].users[name]))
    else FirstWithUser(orgs, sorted[1..], name)
  }

  predicate HasMember(members: map<string, set<string>>, user: string, role: string) {
    role in members && user in members[role]
  }

  function RolesWith(members: map<string, set<string>>, user: string): set<string> {
    set role | role in members && user in members[role]
  }

  // ----- Calls --------------------------------------------------------------------------

  function EditEntries(entries: map<string, Entry>, call: Call): map<string, Entry> {
    match call
    case UpsertBinding(_, name, binding) =>
      entries[name := Entry(binding, if name in entries then entries[name].config else None)]
    case SetSourceConfig(_, name, config) =>
      if name in entries then entries[name := Entry(entries[name].binding, Some(config))] else entries
    case DeleteBinding(_, name) => entries - {name}
    case _ => entries
  }

  function EditRows(kind: Kind, rows: map<string, Value>, call: Call): map<string, Value> {
    if call.Put? && call.kind == kind then rows[call.name := call.value]
    else if call.Delete? && call.kind == kind then rows - {call.name}
    else rows
  }

  function EditRoles(roles: set<string>, call: Call): set<string> {
    match call
    case PutRole(_, name) => roles + {name}
    case DeleteRole(_, name) => roles - {name}
    case _ => roles
  }

  function EditGrants(grants: set<Grant>, call: Call): set<Grant> {
    match call
    case PutGrant(_, grant) => grants + {grant}
    case DeleteGrant(_, grant) => grants - {grant}
    case _ => grants
  }

  function EditMembers(members: map<string, set<string>>, call: Call): map<string, set<string>> {
    match call
    case AddRoleMember(_, role, user) => WithMember(members, role, user)
    case RemoveRoleMember(_, role, user) =>
      if HasMember(members, user, role) then WithoutMember(members, role, user) else members
    case _ => members
  }

  /** One org's state after a call on that org; every call changes one part. */
  function EditOrg(o: OrgState, call: Call): OrgState {
    OrgState(EditEntries(o.entries, call), EditRows(Secrets, o.secrets, call), EditRows(Users, o.users, call),
             EditRows(Policies, o.policies, call), EditRows(Products, o.products, call), EditRoles(o.roles, call),
             EditGrants(o.grants, call), EditMembers(o.members, call))
  }

  predicate Scoped(call: Call) { !call.FindUser? && !call.ListOrgs? }

  /** The calls that create an org never written before. */
  predicate Creates(call: Call) {
    call.UpsertBinding? || call.Put? || call.PutRole? || call.PutGrant? || call.AddRoleMember?
  }

  /** The state after a call. */
  function Next(orgs: Orgs, call: Call): Orgs {
    if Scoped(call) && (call.org in orgs || Creates(call))
    then orgs[call.org := EditOrg(OrgOf(orgs, call.org), call)]
    else orgs
  }

  /** What a call returns. */
  function Answer(orgs: Orgs, call: Call): Reply {
    match call
    case UpsertBinding(org, name, _) =>
      var entries := OrgOf(orgs, org).entries;
      Previous(if name in entries then Some(entries[name].binding) else None)
    case DeleteBinding(org, name) => Flag(name in OrgOf(orgs, org).entries)
    case ListBindings(org) => Bindings(BindingsOf(OrgOf(orgs, org).entries))
    case ListSourceConfigs(org) => Configs(ConfigsOf(OrgOf(orgs, org).entries))
    case Get(kind, org, name) =>
      var rows := NamedIn(OrgOf(orgs, org), kind);
      Record(if name in rows then Some(rows[name]) else None)
    case Delete(kind, org, name) => Flag(name in NamedIn(OrgOf(orgs, org), kind))
    case List(kind, org) => Listing(ListingOf(NamedIn(OrgOf(orgs, org), kind)))
    case FindUser(name) => Match(FirstWithUser(orgs, SortedNames(orgs.Keys), name))
    case DeleteRole(org, name) => Flag(name in OrgOf(orgs, org).roles)
    case ListRoles(org) => Names(SortedNames(OrgOf(orgs, org).roles))
    case DeleteGrant(org, grant) => Flag(grant in OrgOf(orgs, org).grants)
    case ListGrants(org) => Grants(SortedGrants(OrgOf(orgs, org).grants))
    case RemoveRoleMember(org, role, user) => Flag(HasMember(OrgOf(orgs, org).members, user, role))
    case ListRolesForUser(org, user) => Names(SortedNames(RolesWith(OrgOf(orgs, org).members, user)))
    case ListRoleMembers(org, role) =>
      var members := OrgOf(orgs, org).members;
      Names(SortedNames(if role in members then members[role] else {}))
    case ListOrgs => Names(SortedNames(orgs.Keys))
    case _ => Done
  }

  /** The changes a call announces: none for a call that touched nothing. */
  function Announced(orgs: Orgs, call: Call): seq<Change> {
    match call
    case UpsertBinding(org, name, _) => [Change(org, name, Upserted)]
    case SetSourceConfig(org, name, _) =>
      if name in OrgOf(orgs, org).entries then [Change(org, name, Upserted)] else []
    case DeleteBinding(org, name) =>
      if name in OrgOf(orgs, org).entries then [Change(org, name, Deleted)] else []
    case _ => []
  }
}
