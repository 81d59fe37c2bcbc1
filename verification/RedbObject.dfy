/**
  The redb store as an object: point writes inside a transaction, and scan loops over
  tables iterated in key order.
 */
module RedbObject {
  import opened Options
  import opened Orders
  import opened MetaCalls
  import opened RedbStore

  lemma RolesAnswer(key: Grant -> string, t: Tables, org: string, user: string)
    ensures Answer(key, t, Call.ListRolesForUser(org, user)) ==
            Names(RolesOf(Filter(MemberIs(org, user), SortedTriples(t.members))))
  {}

  lemma MembersAnswer(key: Grant -> string, t: Tables, org: string, role: string)
    ensures Answer(key, t, Call.ListRoleMembers(org, role)) ==
            Names(UsersOf(Filter(RoleIs(org, role), SortedTriples(t.members))))
  {}

  // ----- Scan loops ---------------------------------------------------------------------

  method ScanOrg(keys: seq<Pair>, table: map<Pair, Value>, org: string) returns (rows: seq<Listed>)
    requires forall k :: k in keys ==> k in table
    ensures rows == RowsOf(Filter(OwnedBy(org), keys), table)
  {
    rows := [];
    for i := 0 to |keys|
      invariant rows == RowsOf(Filter(OwnedBy(org), keys[..i]), table)
    {
      assert keys[i] in keys;
      FilterStep(OwnedBy(org), keys, i);
      if keys[i].org == org { rows := rows + [Listed(keys[i].name, ShownOf(table[keys[i]]))]; }
    }
    assert keys[..|keys|] == keys;
  }

  method ScanRoles(keys: seq<Triple>, org: string, user: string) returns (roles: seq<string>)
    ensures roles == RolesOf(Filter(MemberIs(org, user), keys))
  {
    roles := [];
    for i := 0 to |keys|
      invariant roles == RolesOf(Filter(MemberIs(org, user), keys[..i]))
    {
      FilterStep(MemberIs(org, user), keys, i);
      if keys[i].org == org && keys[i].user == user { roles := roles + [keys[i].role]; }
    }
    assert keys[..|keys|] == keys;
  }

  method ScanMembers(keys: seq<Triple>, org: string, role: string) returns (users: seq<string>)
    ensures users == UsersOf(Filter(RoleIs(org, role), keys))
  {
    users := [];
    for i := 0 to |keys|
      invariant users == UsersOf(Filter(RoleIs(org, role), keys[..i]))
    {
      FilterStep(RoleIs(org, role), keys, i);
      if keys[i].org == org && keys[i].role == role { users := users + [keys[i].user]; }
    }
    assert keys[..|keys|] == keys;
  }

  class RedbMetaStore {
    const grantKey: Grant -> string
    var tables: Tables
    var feed: seq<Change>

    constructor (grantKey: Grant -> string)
      ensures this.grantKey == grantKey && tables == EmptyTables && feed == []
    {
      this.grantKey := grantKey;
      tables := EmptyTables;
      feed := [];
    }

    method Emit(org: string, name: string, kind: ChangeKind)
      modifies this`feed
      ensures feed == old(feed) + [Change(org, name, kind)]
    {
      feed := feed + [Change(org, name, kind)];
    }

    method UpsertBinding(org: string, name: string, binding: string) returns (previous: Option<string>)
      modifies this
      ensures var call := Call.UpsertBinding(org, name, binding);
              && tables == Next(grantKey, old(tables), call)
              && Previous(previous) == Answer(grantKey, old(tables), call)
              && feed == old(feed) + Announced(old(tables), call)
    {
      var k := Pair(org, name);
      var config := None;
      previous := None;
      if k in tables.entries {
        previous := Some(tables.entries[k].binding);
        config := tables.entries[k].config;
      }
      tables := tables.(entries := tables.entries[k := Entry(binding, config)]);
      Emit(org, name, Upserted);
    }

    method SetSourceConfig(org: string, name: string, config: string)
      modifies this
      ensures var call := Call.SetSourceConfig(org, name, config);
              tables == Next(grantKey, old(tables), call) && feed == old(feed) + Announced(old(tables), call)
    {
      var k := Pair(org, name);
      if k !in tables.entries { return; }
      tables := tables.(entries := tables.entries[k := Entry(tables.entries[k].binding, Some(config))]);
      Emit(org, name, Upserted);
    }

    method DeleteBinding(org: string, name: string) returns (removed: bool)
      modifies this
      ensures var call := Call.DeleteBinding(org, name);
              && tables == Next(grantKey, old(tables), call)
              && Flag(removed) == Answer(grantKey, old(tables), call)
              && feed == old(feed) + Announced(old(tables), call)
    {
      removed := Pair(org, name) in tables.entries;
      tables := tables.(entries := tables.entries - {Pair(org, name)});
      if removed { Emit(org, name, Deleted); }
    }

    /** `put_bytes` on a name-keyed table. */
    method PutBytes(kind: Kind, org: string, name: string, value: Value)
      modifies this`tables
      ensures tables == Next(grantKey, old(tables), Put(kind, org, name, value))
    {
      tables := WithTable(tables, kind, Table(tables, kind)[Pair(org, name) := value]);
    }

    /** `remove_key` on a name-keyed table. */
    method RemoveKey(kind: Kind, org: string, name: string) returns (existed: bool)
      modifies this`tables
      ensures tables == Next(grantKey, old(tables), Delete(kind, org, name))
      ensures Flag(existed) == Answer(grantKey, old(tables), Delete(kind, org, name))
    {
      existed := Pair(org, name) in Table(tables, kind);
      tables := WithTable(tables, kind, Table(tables, kind) - {Pair(org, name)});
    }

    /** `list_org`: a filtered scan in key order. */
    method ListOrg(kind: Kind, org: string) returns (rows: seq<Listed>)
      ensures Listing(rows) == Answer(grantKey, tables, List(kind, org))
    {
      var table := Table(tables, kind);
      rows := ScanOrg(SortedPairs(table.Keys), table, org);
    }

    method FindUser(name: string) returns (found: Option<Located>)
      ensures Match(found) == Answer(grantKey, tables, Call.FindUser(name))
    {
      var keys := SortedPairs(tables.users.Keys);
      assert keys[0..] == keys;
      for i := 0 to |keys|
        invariant FirstUser(keys, tables.users, name) == FirstUser(keys[i..], tables.users, name)
      {
        assert keys[i] in keys && keys[i..][1..] == keys[i + 1..];
        if keys[i].name == name { return Some(Located(keys[i].org, tables.users[keys[i]])); }
      }
      found := None;
    }

    method ListRolesForUser(org: string, user: string) returns (roles: seq<string>)
      ensures Names(roles) == Answer(grantKey, tables, Call.ListRolesForUser(org, user))
    {
      roles := ScanRoles(SortedTriples(tables.members), org, user);
      RolesAnswer(grantKey, tables, org, user);
    }

    method ListRoleMembers(org: string, role: string) returns (users: seq<string>)
      ensures Names(users) == Answer(grantKey, tables, Call.ListRoleMembers(org, role))
    {
      users := ScanMembers(SortedTriples(tables.members), org, role);
      MembersAnswer(grantKey, tables, org, role);
    }

    /** `list_orgs`: one pass over each table. */
    method ListOrgs() returns (orgs: seq<string>)
      ensures Names(orgs) == Answer(grantKey, tables, Call.ListOrgs)
    {
      var seen := CollectOrgs(tables.entries.Keys, {});
      assert seen == OrgsOf(tables.entries.Keys);
      seen := CollectOrgs(tables.secrets.Keys, seen);
      seen := CollectOrgs(tables.users.Keys, seen);
      seen := CollectOrgs(tables.roles, seen);
      seen := CollectOrgs(tables.policies.Keys, seen);
      seen := CollectOrgs(tables.grants.Keys, seen);
      seen := CollectOrgs(tables.products.Keys, seen);
      seen := CollectMemberOrgs(tables.members, seen);
      assert seen == Owners(tables);
      orgs := SortedNames(seen);
    }

    static method CollectMemberOrgs(table: set<Triple>, seen: set<string>) returns (orgs: set<string>)
      ensures orgs == seen + MemberOrgs(table)
    {
      var keys := SortedTriples(table);
      orgs := seen;
      for i := 0 to |keys|
        invariant forall org :: org in orgs <==> org in seen || exists j :: 0 <= j < i && keys[j].org == org
      {
        orgs := orgs + {keys[i].org};
      }
      assert forall k :: k in table ==> k in keys;
    }

    static method CollectOrgs(table: set<Pair>, seen: set<string>) returns (orgs: set<string>)
      ensures orgs == seen + OrgsOf(table)
    {
      var keys := SortedPairs(table);
      orgs := seen;
      for i := 0 to |keys|
        invariant forall org :: org in orgs <==> org in seen || exists j :: 0 <= j < i && keys[j].org == org
      {
        orgs := orgs + {keys[i].org};
      }
      assert forall k :: k in table ==> k in keys;
    }
  }
}
