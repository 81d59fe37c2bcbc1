/**
  The control-plane store interface: its records, its calls and their replies.

  Stored bytes are taken as the records they encode.  Calls on the wrong kind of record do
  not occur, and a reply carries only what the listing of that kind shows.
 */
module MetaCalls {
  import opened Options
  import opened Orders

  datatype Entry = Entry(binding: string, config: Option<string>)

  datatype Value =
    | Secret(ciphertext: seq<nat>)
    | User(hash: Option<string>, superuser: bool)
    | Policy(kind: string, rule: string)
    | Product(sql: string, catalog: Option<string>, schema: Option<string>)

  /** The tables that map a name to a record. */
  datatype Kind = Secrets | Users | Policies | Products

  /** A grant's columns, compared in declaration order. */
  type Grant = seq<string>

  predicate GrantLess(a: Grant, b: Grant) { Lex(StrLess, a, b) }

  datatype Call =
    | UpsertBinding(org: string, name: string, binding: string)
    | SetSourceConfig(org: string, name: string, config: string)
    | DeleteBinding(org: string, name: string)
    | ListBindings(org: string)
    | ListSourceConfigs(org: string)
    | Put(kind: Kind, org: string, name: string, value: Value)
    | Get(kind: Kind, org: string, name: string)
    | Delete(kind: Kind, org: string, name: string)
    | List(kind: Kind, org: string)
    | FindUser(name: string)
    | PutRole(org: string, name: string)
    | DeleteRole(org: string, name: string)
    | ListRoles(org: string)
    | PutGrant(org: string, grant: Grant)
    | DeleteGrant(org: string, grant: Grant)
    | ListGrants(org: string)
    | AddRoleMember(org: string, role: string, user: string)
    | RemoveRoleMember(org: string, role: string, user: string)
    | ListRolesForUser(org: string, user: string)
    | ListRoleMembers(org: string, role: string)
    | ListOrgs

  datatype ChangeKind = Upserted | Deleted

  datatype Change = Change(org: string, name: string, kind: ChangeKind)

  /** What a listing shows of a record: no secret, no hash, no rule. */
  datatype Shown = NameOnly | UserShown(superuser: bool) | PolicyShown(kind: string) | ProductShown(value: Value)

  datatype Located = Located(org: string, user: Value)

  datatype Listed = Listed(name: string, shown: Shown)

  datatype Reply =
    | Done
    | Flag(existed: bool)
    | Previous(binding: Option<string>)
    | Record(value: Option<Value>)
    | Names(names: seq<string>)
    | Listing(rows: seq<Listed>)
    | Bindings(bindings: map<string, string>)
    | Configs(configs: map<string, string>)
    | Match(found: Option<Located>)
    | Grants(grants: seq<Grant>)

  function ShownOf(v: Value): Shown {
    match v
    case Secret(_) => NameOnly
    case User(_, superuser) => UserShown(superuser)
    case Policy(kind, _) => PolicyShown(kind)
    case Product(_, _, _) => ProductShown(v)
  }

  function BindingsOf(entries: map<string, Entry>): map<string, string> {
    map name | name in entries :: entries[name].binding
  }

  function ConfigsOf(entries: map<string, Entry>): map<string, string> {
    map name | name in entries && entries[name].config.Some? :: entries[name].config.value
  }

  function SortedNames(s: set<string>): (r: seq<string>)
    ensures Ascending(StrLess, r) && (forall x :: x in r <==> x in s)
  {
    StrLessTotal();
    Sorted(StrLess, s)
  }

  function SortedPairs(s: set<Pair>): (r: seq<Pair>)
    ensures Ascending(PairLess, r) && (forall x :: x in r <==> x in s)
  {
    PairLessTotal();
    Sorted(PairLess, s)
  }

  function SortedTriples(s: set<Triple>): (r: seq<Triple>)
    ensures Ascending(TripleLess, r) && (forall x :: x in r <==> x in s)
  {
    TripleLessTotal();
    Sorted(TripleLess, s)
  }

  lemma GrantLessTotal()
    ensures StrictTotal(GrantLess)
  {
    StrLessTotal();
    forall a, b | GrantLess(a, b) ensures !GrantLess(b, a) { LexAsymmetric(StrLess, a, b); }
    forall a, b, c | GrantLess(a, b) && GrantLess(b, c) ensures GrantLess(a, c) { LexTransitive(StrLess, a, b, c); }
    forall a, b ensures a == b || GrantLess(a, b) || GrantLess(b, a) { LexTotal(StrLess, a, b); }
  }

  function SortedGrants(s: set<Grant>): (r: seq<Grant>)
    ensures Ascending(GrantLess, r) && (forall x :: x in r <==> x in s)
  {
    GrantLessTotal();
    Sorted(GrantLess, s)
  }

  /** A name-keyed map listed in name order. */
  function ListingOf(rows: map<string, Value>): seq<Listed> {
    var names := SortedNames(rows.Keys);
    seq(|names|, i requires 0 <= i < |names| => assert names[i] in names; Listed(names[i], ShownOf(rows[names[i]])))
  }
}
