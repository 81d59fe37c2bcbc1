/**
  For every sequence of calls the two stores answer and announce alike.  Only the list of
  orgs may differ: the JSON store remembers an org whose objects are all gone.
 */
module StoreTheorems {
  import opened Pigeonhole
  import opened Orders
  import opened MetaCalls
  import opened EmbeddedStore
  import opened RedbStore
  import opened StoreRefinement
  import opened StoreAnswers

  /** Equal replies, but grants are compared as sets and redb's orgs as a subset. */
  ghost predicate SameAnswer(call: Call, e: Reply, r: Reply) {
    match call
    case ListGrants(_) =>
      && e.Grants? && r.Grants?
      && Distinct(e.grants) && Distinct(r.grants)
      && forall g :: g in e.grants <==> g in r.grants
    case ListOrgs =>
      && e.Names? && r.Names?
      && Ascending(StrLess, e.names) && Ascending(StrLess, r.names)
      && forall org :: org in r.names ==> org in e.names
    case _ => e == r
  }

  // ----- One call -----------------------------------------------------------------------

  lemma EntryAnswers(key: Grant -> string, orgs: Orgs, t: Tables, call: Call)
    requires Related(key, orgs, t) && (call.UpsertBinding? || call.DeleteBinding? || call.SetSourceConfig?)
    ensures EmbeddedStore.Answer(orgs, call) == RedbStore.Answer(key, t, call)
  {
    assert Agrees(orgs, t, call.org);
    SliceLookup(t.entries, call.org, call.name);
  }

  lemma EntryListings(key: Grant -> string, orgs: Orgs, t: Tables, call: Call)
    requires Related(key, orgs, t) && (call.ListBindings? || call.ListSourceConfigs?)
    ensures EmbeddedStore.Answer(orgs, call) == RedbStore.Answer(key, t, call)
  {
    assert Agrees(orgs, t, call.org);
  }

  lemma SameChanges(key: Grant -> string, orgs: Orgs, t: Tables, call: Call)
    requires Related(key, orgs, t)
    ensures EmbeddedStore.Announced(orgs, call) == RedbStore.Announced(t, call)
  {
    if call.SetSourceConfig? || call.DeleteBinding? {
      assert Agrees(orgs, t, call.org);
      SliceLookup(t.entries, call.org, call.name);
    }
  }

  lemma NamedAnswers(key: Grant -> string, orgs: Orgs, t: Tables, call: Call)
    requires Related(key, orgs, t) && (call.Get? || call.Delete?)
    ensures EmbeddedStore.Answer(orgs, call) == RedbStore.Answer(key, t, call)
  {
    NamedSlice(key, orgs, t, call.kind, call.org);
    SliceLookup(Table(t, call.kind), call.org, call.name);
  }

  lemma NamedSlice(key: Grant -> string, orgs: Orgs, t: Tables, kind: Kind, org: string)
    requires Related(key, orgs, t)
    ensures NamedIn(OrgOf(orgs, org), kind) == Slice(Table(t, kind), org)
  {
    assert Agrees(orgs, t, org);
  }

  lemma ListAnswers(key: Grant -> string, orgs: Orgs, t: Tables, kind: Kind, org: string)
    requires Related(key, orgs, t)
    ensures EmbeddedStore.Answer(orgs, List(kind, org)) == RedbStore.Answer(key, t, List(kind, org))
  {
    NamedSlice(key, orgs, t, kind, org);
    ScanLists(Table(t, kind), org);
  }

  lemma RoleAnswers(key: Grant -> string, orgs: Orgs, t: Tables, call: Call)
    requires Related(key, orgs, t) && (call.DeleteRole? || call.ListRoles?)
    ensures EmbeddedStore.Answer(orgs, call) == RedbStore.Answer(key, t, call)
  {
    assert Agrees(orgs, t, call.org);
    if call.DeleteRole? {
      SliceNamesLookup(t.roles, call.org, call.name);
    } else {
      OrgNames(t.roles, call.org);
    }
  }

  lemma DeleteGrantAnswers(key: Grant -> string, orgs: Orgs, t: Tables, org: string, grant: Grant)
    requires Injective(key) && Related(key, orgs, t)
    ensures EmbeddedStore.Answer(orgs, DeleteGrant(org, grant)) == RedbStore.Answer(key, t, DeleteGrant(org, grant))
  {
    assert Agrees(orgs, t, org);
    SliceGrantsLookup(key, t.grants, org, grant);
  }

  lemma ListGrantsAnswers(key: Grant -> string, orgs: Orgs, t: Tables, org: string)
    requires Injective(key) && Related(key, orgs, t)
    ensures SameAnswer(ListGrants(org), EmbeddedStore.Answer(orgs, ListGrants(org)),
                       RedbStore.Answer(key, t, ListGrants(org)))
  {
    assert Agrees(orgs, t, org);
    GrantsScan(key, t.grants, org);
    GrantLessTotal();
    var listed := SortedGrants(OrgOf(orgs, org).grants);
    forall i, j | 0 <= i < j < |listed| ensures listed[i] != listed[j] { assert GrantLess(listed[i], listed[j]); }
  }

  lemma MemberAnswers(key: Grant -> string, orgs: Orgs, t: Tables, call: Call)
    requires Related(key, orgs, t) && (call.RemoveRoleMember? || call.ListRolesForUser? || call.ListRoleMembers?)
    ensures EmbeddedStore.Answer(orgs, call) == RedbStore.Answer(key, t, call)
  {
    assert Agrees(orgs, t, call.org);
    if call.RemoveRoleMember? {
      HasMemberLookup(t.members, call.org, call.role, call.user);
    } else if call.ListRolesForUser? {
      RolesScan(t.members, call.org, call.user);
    } else {
      MembersScan(t.members, call.org, call.role);
      SliceMembersLookup(t.members, call.org, call.role);
    }
  }

  // ----- The list of orgs ---------------------------------------------------------------

  lemma SliceEmptyIff<V>(rows: map<Pair, V>, org: string)
    ensures org in OrgsOf(rows.Keys) <==> Slice(rows, org) != map[]
  {
    if org in OrgsOf(rows.Keys) {
      var k :| k in rows && k.org == org;
      assert k.name in Slice(rows, org);
    }
    if Slice(rows, org) != map[] {
      var n :| n in Slice(rows, org);
      SliceLookup(rows, org, n);
      assert Pair(org, n).org == org;
    }
  }

  lemma RolesEmptyIff(roles: set<Pair>, org: string)
    ensures org in OrgsOf(roles) <==> SliceNames(roles, org) != {}
  {
    if k :| k in roles && k.org == org { assert k.name in SliceNames(roles, org); }
  }

  lemma GrantsEmptyIff(grants: map<Pair, Grant>, org: string)
    ensures org in OrgsOf(grants.Keys) <==> SliceGrants(grants, org) != {}
  {
    if k :| k in grants && k.org == org { assert grants[k] in SliceGrants(grants, org); }
  }

  lemma MembersEmptyIff(members: set<Triple>, org: string)
    ensures org in MemberOrgs(members) <==> SliceMembers(members, org) != map[]
  {
    if k :| k in members && k.org == org { assert k.role in SliceMembers(members, org); }
    if SliceMembers(members, org) != map[] {
      var role :| role in SliceMembers(members, org);
      var k :| k in members && k.org == org && k.role == role;
    }
  }

  /** An org owns a row exactly when its slice holds something. */
  lemma OwnersAreNonEmpty(t: Tables, org: string)
    ensures org in Owners(t) <==> SliceOrg(t, org) != EmptyOrg
  {
    SliceEmptyIff(t.entries, org);
    SliceEmptyIff(t.secrets, org);
    SliceEmptyIff(t.users, org);
    SliceEmptyIff(t.policies, org);
    SliceEmptyIff(t.products, org);
    RolesEmptyIff(t.roles, org);
    GrantsEmptyIff(t.grants, org);
    MembersEmptyIff(t.members, org);
  }

  /** redb lists the orgs that hold something, the JSON store also those that once did. */
  lemma OrgListings(key: Grant -> string, orgs: Orgs, t: Tables)
    requires Related(key, orgs, t)
    ensures forall org :: org in Owners(t) <==> org in orgs && orgs[org] != EmptyOrg
    ensures SameAnswer(ListOrgs, EmbeddedStore.Answer(orgs, ListOrgs), RedbStore.Answer(key, t, ListOrgs))
    ensures EmbeddedStore.Answer(orgs, ListOrgs) == RedbStore.Answer(key, t, ListOrgs) <==>
            forall org :: org in orgs ==> orgs[org] != EmptyOrg
  {
    forall org ensures org in Owners(t) <==> org in orgs && orgs[org] != EmptyOrg {
      OwnersAreNonEmpty(t, org);
      assert Agrees(orgs, t, org);
    }
    if forall org :: org in orgs ==> orgs[org] != EmptyOrg {
      assert Owners(t) == orgs.Keys;
    }
    if org :| org in orgs && orgs[org] == EmptyOrg {
      assert org in SortedNames(orgs.Keys) && org !in SortedNames(Owners(t));
    }
  }

  // ----- Every call, every run ----------------------------------------------------------

  lemma CallAnswers(key: Grant -> string, orgs: Orgs, t: Tables, call: Call)
    requires Injective(key) && Related(key, orgs, t)
    ensures SameAnswer(call, EmbeddedStore.Answer(orgs, call), RedbStore.Answer(key, t, call))
    ensures EmbeddedStore.Announced(orgs, call) == RedbStore.Announced(t, call)
  {
    SameChanges(key, orgs, t, call);
    if call.UpsertBinding? || call.DeleteBinding? || call.SetSourceConfig? {
      EntryAnswers(key, orgs, t, call);
    } else if call.ListBindings? || call.ListSourceConfigs? {
      EntryListings(key, orgs, t, call);
    } else if call.Get? || call.Delete? {
      NamedAnswers(key, orgs, t, call);
    } else if call.List? {
      ListAnswers(key, orgs, t, call.kind, call.org);
    } else if call.DeleteRole? || call.ListRoles? {
      RoleAnswers(key, orgs, t, call);
    } else if call.DeleteGrant? {
      DeleteGrantAnswers(key, orgs, t, call.org, call.grant);
    } else if call.ListGrants? {
      ListGrantsAnswers(key, orgs, t, call.org);
    } else if call.RemoveRoleMember? || call.ListRolesForUser? || call.ListRoleMembers? {
      MemberAnswers(key, orgs, t, call);
    } else if call.FindUser? {
      FindUserSame(key, orgs, t, call.name);
    } else if call.ListOrgs? {
      OrgListings(key, orgs, t);
    }
  }

  /** Everything a caller and a subscriber observe. */
  datatype Trace = Trace(replies: seq<Reply>, changes: seq<Change>)

  function EmbeddedTrace(orgs: Orgs, calls: seq<Call>): Trace
    decreases |calls|
  {
    if calls == [] then Trace([], [])
    else
      var rest := EmbeddedTrace(EmbeddedStore.Next(orgs, calls[0]), calls[1..]);
      Trace([EmbeddedStore.Answer(orgs, calls[0])] + rest.replies,
            EmbeddedStore.Announced(orgs, calls[0]) + rest.changes)
  }

  function RedbTrace(key: Grant -> string, t: Tables, calls: seq<Call>): Trace
    decreases |calls|
  {
    if calls == [] then Trace([], [])
    else
      var rest := RedbTrace(key, RedbStore.Next(key, t, calls[0]), calls[1..]);
      Trace([RedbStore.Answer(key, t, calls[0])] + rest.replies, RedbStore.Announced(t, calls[0]) + rest.changes)
  }

  ghost predicate SameTrace(calls: seq<Call>, e: Trace, r: Trace) {
    && |e.replies| == |r.replies| == |calls|
    && (forall i :: 0 <= i < |calls| ==> SameAnswer(calls[i], e.replies[i], r.replies[i]))
    && e.changes == r.changes
  }

  lemma {:induction false} RelatedStoresTrace(key: Grant -> string, orgs: Orgs, t: Tables, calls: seq<Call>)
    requires Injective(key) && Related(key, orgs, t)
    ensures SameTrace(calls, EmbeddedTrace(orgs, calls), RedbTrace(key, t, calls))
    decreases |calls|
  {
    if calls != [] {
      CallAnswers(key, orgs, t, calls[0]);
      CallRelated(key, orgs, t, calls[0]);
      var orgs', t' := EmbeddedStore.Next(orgs, calls[0]), RedbStore.Next(key, t, calls[0]);
      RelatedStoresTrace(key, orgs', t', calls[1..]);
      TraceStep(calls, EmbeddedStore.Answer(orgs, calls[0]), RedbStore.Answer(key, t, calls[0]),
                EmbeddedTrace(orgs', calls[1..]).replies, RedbTrace(key, t', calls[1..]).replies);
    }
  }

  lemma TraceStep(calls: seq<Call>, e: Reply, r: Reply, es: seq<Reply>, rs: seq<Reply>)
    requires calls != [] && SameAnswer(calls[0], e, r) && |es| == |rs| == |calls| - 1
    requires forall i :: 0 <= i < |es| ==> SameAnswer(calls[1..][i], es[i], rs[i])
    ensures forall i :: 0 <= i < |calls| ==> SameAnswer(calls[i], ([e] + es)[i], ([r] + rs)[i])
  {
    forall i | 0 < i < |calls| ensures SameAnswer(calls[i], ([e] + es)[i], ([r] + rs)[i]) {
      assert calls[i] == calls[1..][i - 1];
    }
  }

  /** From empty stores, every sequence of calls is answered and announced alike. */
  lemma RedbRefinesEmbedded(key: Grant -> string, calls: seq<Call>)
    requires Injective(key)
    ensures SameTrace(calls, EmbeddedTrace(map[], calls), RedbTrace(key, EmptyTables, calls))
  {
    EmptyRelated(key);
    RelatedStoresTrace(key, map[], EmptyTables, calls);
  }

  lemma EmptyRelated(key: Grant -> string)
    ensures Related(key, map[], EmptyTables)
  {
    forall org ensures Agrees(map[], EmptyTables, org) {
      assert SliceOrg(EmptyTables, org) == EmptyOrg;
    }
  }

  lemma EmbeddedRemembers(kind: Kind, org: string, name: string, v: Value)
    ensures var orgs := EmbeddedStore.Next(EmbeddedStore.Next(map[], Put(kind, org, name, v)), Delete(kind, org, name));
            EmbeddedStore.Answer(orgs, ListOrgs) == Names([org])
  {
    OnlyOrg(kind, org, name, v);
    StrLessTotal();
    SortedIsUnique(StrLess, [org], {org});
  }

  lemma OnlyOrg(kind: Kind, org: string, name: string, v: Value)
    ensures var put := EmbeddedStore.Next(map[], Put(kind, org, name, v));
            EmbeddedStore.Next(put, Delete(kind, org, name)).Keys == {org}
  {}

  lemma RedbForgets(key: Grant -> string, kind: Kind, org: string, name: string, v: Value)
    ensures var put := RedbStore.Next(key, EmptyTables, Put(kind, org, name, v));
            RedbStore.Next(key, put, Delete(kind, org, name)) == EmptyTables
  {
    var rows: map<Pair, Value> := map[Pair(org, name) := v];
    assert RedbStore.Next(key, EmptyTables, Put(kind, org, name, v)) == WithTable(EmptyTables, kind, rows);
    assert rows - {Pair(org, name)} == map[];
  }

  /** A put and a delete are enough for the org lists to differ. */
  lemma EmptiedOrgIsStillListed(key: Grant -> string, kind: Kind, org: string, name: string, v: Value)
    ensures var put, delete := Put(kind, org, name, v), Delete(kind, org, name);
            var orgs := EmbeddedStore.Next(EmbeddedStore.Next(map[], put), delete);
            var t := RedbStore.Next(key, RedbStore.Next(key, EmptyTables, put), delete);
            && EmbeddedStore.Answer(orgs, ListOrgs) == Names([org])
            && RedbStore.Answer(key, t, ListOrgs) == Names([])
  {
    EmbeddedRemembers(kind, org, name, v);
    RedbForgets(key, kind, org, name, v);
    assert Owners(EmptyTables) == {};
  }
}
