/**
  The redb store refines the JSON store.

  The slice of the flat tables that belongs to one org is that org's nested state.  Every
  call keeps this so, answers alike and announces the same changes.
 */
module StoreRefinement {
  import opened Orders
  import opened MetaCalls
  import opened EmbeddedStore
  import opened RedbStore

  // ----- One org's share of the tables --------------------------------------------------

  function SliceNames(keys: set<Pair>, org: string): set<string> { set k | k in keys && k.org == org :: k.name }

  function SliceGrants(rows: map<Pair, Grant>, org: string): set<Grant> {
    set k | k in rows && k.org == org :: rows[k]
  }

  function SliceRole(keys: set<Triple>, org: string, role: string): set<string> {
    set k | k in keys && k.org == org && k.role == role :: k.user
  }

  function SliceMembers(keys: set<Triple>, org: string): map<string, set<string>> {
    map k | k in keys && k.org == org :: k.role := SliceRole(keys, org, k.role)
  }

  function SliceOrg(t: Tables, org: string): OrgState {
    OrgState(Slice(t.entries, org), Slice(t.secrets, org), Slice(t.users, org), Slice(t.policies, org),
             Slice(t.products, org), SliceNames(t.roles, org), SliceGrants(t.grants, org), SliceMembers(t.members, org))
  }

  ghost predicate Injective(key: Grant -> string) { forall a, b :: key(a) == key(b) ==> a == b }

  predicate GrantsKeyed(key: Grant -> string, rows: map<Pair, Grant>) {
    forall k :: k in rows ==> k.name == key(rows[k])
  }

  /** The flat tables hold, org by org, what the nested state holds. */
  ghost predicate Related(key: Grant -> string, orgs: Orgs, t: Tables) {
    && GrantsKeyed(key, t.grants)
    && forall org :: Agrees(orgs, t, org)
  }

  // ----- Writing one row changes one slice ----------------------------------------------

  lemma SliceLookup<V>(rows: map<Pair, V>, org: string, name: string)
    ensures name in Slice(rows, org) <==> Pair(org, name) in rows
    ensures Pair(org, name) in rows ==> Slice(rows, org)[name] == rows[Pair(org, name)]
  {}

  lemma SlicePut<V>(rows: map<Pair, V>, org: string, name: string, v: V, other: string)
    ensures Slice(rows[Pair(org, name) := v], other) ==
            if other == org then Slice(rows, org)[name := v] else Slice(rows, other)
  {
    var k := Pair(org, name);
    var after := Slice(rows[k := v], other);
    var want := if other == org then Slice(rows, org)[name := v] else Slice(rows, other);
    forall n ensures n in after <==> n in want {
      SliceLookup(rows[k := v], other, n);
      SliceLookup(rows, other, n);
    }
    forall n | n in after ensures after[n] == want[n] {
      SliceLookup(rows[k := v], other, n);
      SliceLookup(rows, other, n);
    }
  }

  lemma SliceRemove<V>(rows: map<Pair, V>, org: string, name: string, other: string)
    ensures Slice(rows - {Pair(org, name)}, other) ==
            if other == org then Slice(rows, org) - {name} else Slice(rows, other)
  {
    var after := Slice(rows - {Pair(org, name)}, other);
    var want := if other == org then Slice(rows, org) - {name} else Slice(rows, other);
    forall n ensures n in after <==> n in want {
      SliceLookup(rows - {Pair(org, name)}, other, n);
      SliceLookup(rows, other, n);
    }
    forall n | n in after ensures after[n] == want[n] {
      SliceLookup(rows - {Pair(org, name)}, other, n);
      SliceLookup(rows, other, n);
    }
  }

  lemma SliceNamesLookup(keys: set<Pair>, org: string, name: string)
    ensures name in SliceNames(keys, org) <==> Pair(org, name) in keys
  {
    if name in SliceNames(keys, org) {
      var k :| k in keys && k.org == org && k.name == name;
      assert k == Pair(org, name);
    }
    if Pair(org, name) in keys { assert Pair(org, name).org == org && Pair(org, name).name == name; }
  }

  lemma SliceNamesChange(keys: set<Pair>, org: string, name: string, other: string)
    ensures SliceNames(keys + {Pair(org, name)}, other) == SliceNames(keys, other) + if other == org then {name} else {}
    ensures SliceNames(keys - {Pair(org, name)}, other) == SliceNames(keys, other) - if other == org then {name} else {}
  {
    var more, fewer := keys + {Pair(org, name)}, keys - {Pair(org, name)};
    forall n
      ensures n in SliceNames(more, other) <==> n in SliceNames(keys, other) || (other == org && n == name)
      ensures n in SliceNames(fewer, other) <==> n in SliceNames(keys, other) && !(other == org && n == name)
    {
      SliceNamesLookup(more, other, n);
      SliceNamesLookup(fewer, other, n);
      SliceNamesLookup(keys, other, n);
    }
  }

  lemma SliceGrantsLookup(key: Grant -> string, rows: map<Pair, Grant>, org: string, grant: Grant)
    requires Injective(key) && GrantsKeyed(key, rows)
    ensures grant in SliceGrants(rows, org) <==> Pair(org, key(grant)) in rows
    ensures Pair(org, key(grant)) in rows ==> rows[Pair(org, key(grant))] == grant
  {
    if grant in SliceGrants(rows, org) {
      var k :| k in rows && k.org == org && rows[k] == grant;
      assert k == Pair(org, key(grant));
    }
    if Pair(org, key(grant)) in rows {
      assert key(rows[Pair(org, key(grant))]) == key(grant);
      assert Pair(org, key(grant)).org == org;
    }
  }

  lemma SliceGrantsPut(key: Grant -> string, rows: map<Pair, Grant>, org: string, grant: Grant, other: string)
    requires Injective(key) && GrantsKeyed(key, rows)
    ensures var after := rows[Pair(org, key(grant)) := grant];
            GrantsKeyed(key, after) &&
            SliceGrants(after, other) == SliceGrants(rows, other) + if other == org then {grant} else {}
  {
    var after := rows[Pair(org, key(grant)) := grant];
    forall g ensures g in SliceGrants(after, other) <==> g in SliceGrants(rows, other) || (other == org && g == grant) {
      SliceGrantsLookup(key, after, other, g);
      SliceGrantsLookup(key, rows, other, g);
    }
  }

  lemma SliceGrantsRemove(key: Grant -> string, rows: map<Pair, Grant>, org: string, grant: Grant, other: string)
    requires Injective(key) && GrantsKeyed(key, rows)
    ensures var after := rows - {Pair(org, key(grant))};
            GrantsKeyed(key, after) &&
            SliceGrants(after, other) == SliceGrants(rows, other) - if other == org then {grant} else {}
  {
    var after := rows - {Pair(org, key(grant))};
    forall g
      ensures g in SliceGrants(after, other) <==> g in SliceGrants(rows, other) && !(other == org && g == grant)
    {
      SliceGrantsLookup(key, after, other, g);
      SliceGrantsLookup(key, rows, other, g);
    }
  }

  lemma SliceRoleLookup(keys: set<Triple>, org: string, role: string, user: string)
    ensures user in SliceRole(keys, org, role) <==> Triple(org, role, user) in keys
  {
    if user in SliceRole(keys, org, role) {
      var k :| k in keys && k.org == org && k.role == role && k.user == user;
      assert k == Triple(org, role, user);
    }
    if Triple(org, role, user) in keys {
      var k := Triple(org, role, user);
      assert k.org == org && k.role == role && k.user == user;
    }
  }

  /** A role is listed exactly while it has members. */
  lemma SliceMembersLookup(keys: set<Triple>, org: string, role: string)
    ensures role in SliceMembers(keys, org) <==> SliceRole(keys, org, role) != {}
    ensures role in SliceMembers(keys, org) ==> SliceMembers(keys, org)[role] == SliceRole(keys, org, role)
  {
    if role in SliceMembers(keys, org) {
      var k :| k in keys && k.org == org && k.role == role;
      assert k.user in SliceRole(keys, org, role);
    }
    if SliceRole(keys, org, role) != {} {
      var user :| user in SliceRole(keys, org, role);
      var k :| k in keys && k.org == org && k.role == role && k.user == user;
      assert role in SliceMembers(keys, org);
    }
  }

  lemma HasMemberLookup(keys: set<Triple>, org: string, role: string, user: string)
    ensures HasMember(SliceMembers(keys, org), user, role) <==> Triple(org, role, user) in keys
  {
    SliceMembersLookup(keys, org, role);
    SliceRoleLookup(keys, org, role, user);
  }

  lemma SliceRoleAdd(keys: set<Triple>, org: string, role: string, user: string, other: string, r: string)
    ensures SliceRole(keys + {Triple(org, role, user)}, other, r) ==
            SliceRole(keys, other, r) + if other == org && r == role then {user} else {}
  {
    var after := keys + {Triple(org, role, user)};
    forall u ensures u in SliceRole(after, other, r) <==>
                     u in SliceRole(keys, other, r) || (other == org && r == role && u == user)
    {
      SliceRoleLookup(after, other, r, u);
      SliceRoleLookup(keys, other, r, u);
    }
  }

  lemma SliceRoleRemove(keys: set<Triple>, org: string, role: string, user: string, other: string, r: string)
    ensures SliceRole(keys - {Triple(org, role, user)}, other, r) ==
            SliceRole(keys, other, r) - if other == org && r == role then {user} else {}
  {
    var after := keys - {Triple(org, role, user)};
    forall u ensures u in SliceRole(after, other, r) <==>
                     u in SliceRole(keys, other, r) && !(other == org && r == role && u == user)
    {
      SliceRoleLookup(after, other, r, u);
      SliceRoleLookup(keys, other, r, u);
    }
  }

  lemma SliceMembersAdd(keys: set<Triple>, org: string, role: string, user: string, other: string)
    ensures SliceMembers(keys + {Triple(org, role, user)}, other) ==
            if other == org then WithMember(SliceMembers(keys, org), role, user) else SliceMembers(keys, other)
  {
    var after := SliceMembers(keys + {Triple(org, role, user)}, other);
    var before := SliceMembers(keys, other);
    var want := if other == org then WithMember(before, role, user) else before;
    forall r ensures r in after <==> r in want {
      MembersAddAt(keys, org, role, user, other, r);
    }
    forall r | r in after ensures after[r] == want[r] {
      MembersAddAt(keys, org, role, user, other, r);
    }
  }

  lemma MembersAddAt(keys: set<Triple>, org: string, role: string, user: string, other: string, r: string)
    ensures var after := SliceMembers(keys + {Triple(org, role, user)}, other);
            var before := SliceMembers(keys, other);
            var want := if other == org then WithMember(before, role, user) else before;
            (r in after <==> r in want) && (r in after ==> after[r] == want[r])
  {
    SliceRoleAdd(keys, org, role, user, other, r);
    SliceMembersLookup(keys, other, r);
    SliceMembersLookup(keys + {Triple(org, role, user)}, other, r);
    assert {user} + SliceRole(keys, other, r) != {};
  }

  lemma SliceMembersRemove(keys: set<Triple>, org: string, role: string, user: string, other: string)
    requires HasMember(SliceMembers(keys, org), user, role)
    ensures SliceMembers(keys - {Triple(org, role, user)}, other) ==
            if other == org then WithoutMember(SliceMembers(keys, org), role, user) else SliceMembers(keys, other)
  {
    var after := SliceMembers(keys - {Triple(org, role, user)}, other);
    var want := if other == org then WithoutMember(SliceMembers(keys, org), role, user) else SliceMembers(keys, other);
    forall r ensures r in after <==> r in want {
      MembersRemoveAt(keys, org, role, user, other, r);
    }
    forall r | r in after ensures after[r] == want[r] {
      MembersRemoveAt(keys, org, role, user, other, r);
    }
  }

  lemma MembersRemoveAt(keys: set<Triple>, org: string, role: string, user: string, other: string, r: string)
    requires HasMember(SliceMembers(keys, org), user, role)
    ensures var after := SliceMembers(keys - {Triple(org, role, user)}, other);
            var want := if other == org then WithoutMember(SliceMembers(keys, org), role, user)
                        else SliceMembers(keys, other);
            (r in after <==> r in want) && (r in after ==> after[r] == want[r])
  {
    SliceRoleRemove(keys, org, role, user, other, r);
    SliceMembersLookup(keys, other, r);
    SliceMembersLookup(keys, org, role);
    SliceMembersLookup(keys - {Triple(org, role, user)}, other, r);
  }

  // ----- Every call keeps the relation --------------------------------------------------

  /** One org agrees: its nested state is its slice. */
  predicate Agrees(orgs: Orgs, t: Tables, org: string) { OrgOf(orgs, org) == SliceOrg(t, org) }

  /** What a call does to a part of the tables is, slice by slice, what it does to that part of the org. */
  lemma EntriesFollow(entries: map<Pair, Entry>, call: Call, other: string)
    requires Scoped(call)
    ensures Slice(NextEntries(entries, call), other) ==
            if other == call.org then EditEntries(Slice(entries, other), call) else Slice(entries, other)
  {
    if call.UpsertBinding? || call.SetSourceConfig? {
      var k, after := Pair(call.org, call.name), NextEntries(entries, call);
      SliceLookup(entries, call.org, call.name);
      if k in after { SlicePut(entries, call.org, call.name, after[k], other); }
    } else if call.DeleteBinding? {
      SliceRemove(entries, call.org, call.name, other);
    }
  }

  lemma RowsFollow(kind: Kind, rows: map<Pair, Value>, call: Call, other: string)
    requires Scoped(call)
    ensures Slice(NextRows(kind, rows, call), other) ==
            if other == call.org then EditRows(kind, Slice(rows, other), call) else Slice(rows, other)
  {
    if call.Put? {
      SlicePut(rows, call.org, call.name, call.value, other);
    } else if call.Delete? {
      SliceRemove(rows, call.org, call.name, other);
    }
  }

  lemma RolesFollow(roles: set<Pair>, call: Call, other: string)
    requires Scoped(call)
    ensures SliceNames(NextRoles(roles, call), other) ==
            if other == call.org then EditRoles(SliceNames(roles, other), call) else SliceNames(roles, other)
  {
    if call.PutRole? || call.DeleteRole? { SliceNamesChange(roles, call.org, call.name, other); }
  }

  lemma GrantsFollow(key: Grant -> string, rows: map<Pair, Grant>, call: Call, other: string)
    requires Injective(key) && GrantsKeyed(key, rows) && Scoped(call)
    ensures SliceGrants(NextGrants(key, rows, call), other) ==
            if other == call.org then EditGrants(SliceGrants(rows, other), call) else SliceGrants(rows, other)
  {
    if call.PutGrant? {
      SliceGrantsPut(key, rows, call.org, call.grant, other);
    } else if call.DeleteGrant? {
      SliceGrantsRemove(key, rows, call.org, call.grant, other);
    }
  }

  lemma MembersFollow(keys: set<Triple>, call: Call, other: string)
    requires Scoped(call)
    ensures SliceMembers(NextMembers(keys, call), other) ==
            if other == call.org then EditMembers(SliceMembers(keys, other), call) else SliceMembers(keys, other)
  {
    if call.AddRoleMember? {
      SliceMembersAdd(keys, call.org, call.role, call.user, other);
    } else if call.RemoveRoleMember? {
      HasMemberLookup(keys, call.org, call.role, call.user);
      if Triple(call.org, call.role, call.user) in keys {
        SliceMembersRemove(keys, call.org, call.role, call.user, other);
      } else {
        assert NextMembers(keys, call) == keys;
      }
    }
  }

  /** What a call does to the tables is, for every org's slice, what it does to that org. */
  lemma CallFollows(key: Grant -> string, t: Tables, call: Call, other: string)
    requires Injective(key) && GrantsKeyed(key, t.grants) && Scoped(call)
    ensures SliceOrg(RedbStore.Next(key, t, call), other) ==
            if other == call.org then EditOrg(SliceOrg(t, other), call) else SliceOrg(t, other)
  {
    EntriesFollow(t.entries, call, other);
    RowsFollow(Secrets, t.secrets, call, other);
    RowsFollow(Users, t.users, call, other);
    RowsFollow(Policies, t.policies, call, other);
    RowsFollow(Products, t.products, call, other);
    RolesFollow(t.roles, call, other);
    GrantsFollow(key, t.grants, call, other);
    MembersFollow(t.members, call, other);
  }

  /** A call that does not create an org leaves an empty one empty. */
  lemma EditEmpty(call: Call)
    requires Scoped(call) && !Creates(call)
    ensures EditOrg(EmptyOrg, call) == EmptyOrg
  {}

  lemma NextAt(orgs: Orgs, call: Call, other: string)
    ensures OrgOf(EmbeddedStore.Next(orgs, call), other) ==
            if Scoped(call) && call.org == other then EditOrg(OrgOf(orgs, other), call) else OrgOf(orgs, other)
  {
    if Scoped(call) && !Creates(call) { EditEmpty(call); }
  }

  lemma CallAgrees(key: Grant -> string, orgs: Orgs, t: Tables, call: Call, other: string)
    requires Injective(key) && GrantsKeyed(key, t.grants) && Agrees(orgs, t, other)
    ensures Agrees(EmbeddedStore.Next(orgs, call), RedbStore.Next(key, t, call), other)
  {
    NextAt(orgs, call, other);
    if Scoped(call) { CallFollows(key, t, call, other); }
  }

  lemma CallRelated(key: Grant -> string, orgs: Orgs, t: Tables, call: Call)
    requires Injective(key) && Related(key, orgs, t)
    ensures Related(key, EmbeddedStore.Next(orgs, call), RedbStore.Next(key, t, call))
  {
    assert GrantsKeyed(key, NextGrants(key, t.grants, call));
    forall other ensures Agrees(EmbeddedStore.Next(orgs, call), RedbStore.Next(key, t, call), other) {
      assert Agrees(orgs, t, other);
      CallAgrees(key, orgs, t, call, other);
    }
  }
}
