/**
  Related stores answer alike: scans of the flat tables in key order give the sorted
  listings of the nested maps.
 */
module StoreAnswers {
  import opened Options
  import opened Pigeonhole
  import opened Orders
  import opened MetaCalls
  import opened EmbeddedStore
  import opened RedbStore
  import opened StoreRefinement

  // ----- Scans of one org ---------------------------------------------------------------

  /** The names a scan of one org meets are that org's names in sorted order. */
  lemma OrgNames(keys: set<Pair>, org: string)
    ensures NamesOf(OrgKeys(keys, org)) == SortedNames(SliceNames(keys, org))
  {
    var hits := OrgKeys(keys, org);
    PairLessTotal();
    StrLessTotal();
    FilterAscending(PairLess, OwnedBy(org), SortedPairs(keys));
    forall i | 0 <= i < |hits| ensures hits[i].org == org {
      assert hits[i] in hits;
    }
    var names := NamesOf(hits);
    forall i, j | 0 <= i < j < |names| ensures StrLess(names[i], names[j]) {
      assert PairLess(hits[i], hits[j]);
    }
    forall x ensures x in names <==> x in SliceNames(keys, org) { OrgNameHit(keys, org, x); }
    SortedIsUnique(StrLess, names, SliceNames(keys, org));
  }

  lemma OrgNameHit(keys: set<Pair>, org: string, x: string)
    ensures x in NamesOf(OrgKeys(keys, org)) <==> x in SliceNames(keys, org)
  {
    var hits := OrgKeys(keys, org);
    SliceNamesLookup(keys, org, x);
    if x in NamesOf(hits) {
      var i :| 0 <= i < |hits| && NamesOf(hits)[i] == x;
      assert hits[i] in hits && hits[i] == Pair(org, x);
    }
    if Pair(org, x) in keys {
      assert OwnedBy(org)(Pair(org, x));
      assert Pair(org, x) in hits;
      var i :| 0 <= i < |hits| && hits[i] == Pair(org, x);
      assert NamesOf(hits)[i] == x;
    }
  }

  lemma SliceKeys<V>(rows: map<Pair, V>, org: string)
    ensures SliceNames(rows.Keys, org) == Slice(rows, org).Keys
  {
    forall x ensures x in SliceNames(rows.Keys, org) <==> x in Slice(rows, org).Keys {
      SliceNamesLookup(rows.Keys, org, x);
      SliceLookup(rows, org, x);
    }
  }

  /** Scanning a table for one org lists that org's map in name order. */
  lemma ScanLists(rows: map<Pair, Value>, org: string)
    ensures RowsOf(OrgKeys(rows.Keys, org), rows) == ListingOf(Slice(rows, org))
  {
    var hits := OrgKeys(rows.Keys, org);
    OrgNames(rows.Keys, org);
    SliceKeys(rows, org);
    var names := SortedNames(Slice(rows, org).Keys);
    assert NamesOf(hits) == names;
    forall i | 0 <= i < |hits| ensures RowsOf(hits, rows)[i] == ListingOf(Slice(rows, org))[i] {
      assert hits[i] in hits && hits[i].org == org && NamesOf(hits)[i] == names[i];
      assert hits[i] == Pair(org, names[i]);
      SliceLookup(rows, org, names[i]);
    }
  }

  // ----- Grants -------------------------------------------------------------------------

  /** A scan of the grants table meets every grant of the org once, in an order of its own. */
  lemma GrantsScan(key: Grant -> string, rows: map<Pair, Grant>, org: string)
    requires Injective(key) && GrantsKeyed(key, rows)
    ensures var scanned := GrantsOf(OrgKeys(rows.Keys, org), rows);
            Distinct(scanned) && forall g :: g in scanned <==> g in SliceGrants(rows, org)
  {
    var hits := OrgKeys(rows.Keys, org);
    var scanned := GrantsOf(hits, rows);
    PairLessTotal();
    FilterAscending(PairLess, OwnedBy(org), SortedPairs(rows.Keys));
    forall i | 0 <= i < |hits| ensures hits[i].org == org && hits[i] in rows {
      assert hits[i] in hits;
    }
    forall i, j | 0 <= i < j < |scanned| ensures scanned[i] != scanned[j] {
      assert PairLess(hits[i], hits[j]);
      assert hits[i].name == key(scanned[i]) && hits[j].name == key(scanned[j]);
    }
    forall g ensures g in scanned <==> g in SliceGrants(rows, org) { GrantHit(key, rows, org, g); }
  }

  lemma GrantHit(key: Grant -> string, rows: map<Pair, Grant>, org: string, g: Grant)
    requires Injective(key) && GrantsKeyed(key, rows)
    ensures g in GrantsOf(OrgKeys(rows.Keys, org), rows) <==> g in SliceGrants(rows, org)
  {
    var hits := OrgKeys(rows.Keys, org);
    SliceGrantsLookup(key, rows, org, g);
    var k := Pair(org, key(g));
    if g in GrantsOf(hits, rows) {
      var i :| 0 <= i < |hits| && GrantsOf(hits, rows)[i] == g;
      assert hits[i] in hits && hits[i].org == org && hits[i].name == key(g);
      assert hits[i] == k;
    }
    if k in rows {
      assert OwnedBy(org)(k);
      assert k in hits;
      var i :| 0 <= i < |hits| && hits[i] == k;
      assert GrantsOf(hits, rows)[i] == g;
    }
  }

  // ----- Membership ---------------------------------------------------------------------

  lemma RolesScan(keys: set<Triple>, org: string, user: string)
    ensures RolesOf(Filter(MemberIs(org, user), SortedTriples(keys))) ==
            SortedNames(RolesWith(SliceMembers(keys, org), user))
  {
    var hits := Filter(MemberIs(org, user), SortedTriples(keys));
    TripleLessTotal();
    StrLessTotal();
    FilterAscending(TripleLess, MemberIs(org, user), SortedTriples(keys));
    forall i | 0 <= i < |hits| ensures hits[i].org == org && hits[i].user == user {
      assert hits[i] in hits;
    }
    forall i, j | 0 <= i < j < |hits| ensures StrLess(RolesOf(hits)[i], RolesOf(hits)[j]) {
      assert TripleLess(hits[i], hits[j]);
    }
    forall x ensures x in RolesOf(hits) <==> x in RolesWith(SliceMembers(keys, org), user) {
      RoleHit(keys, org, user, x);
    }
    SortedIsUnique(StrLess, RolesOf(hits), RolesWith(SliceMembers(keys, org), user));
  }

  lemma RoleHit(keys: set<Triple>, org: string, user: string, x: string)
    ensures x in RolesOf(Filter(MemberIs(org, user), SortedTriples(keys))) <==> Triple(org, x, user) in keys
    ensures x in RolesWith(SliceMembers(keys, org), user) <==> Triple(org, x, user) in keys
  {
    var hits := Filter(MemberIs(org, user), SortedTriples(keys));
    var k := Triple(org, x, user);
    HasMemberLookup(keys, org, x, user);
    if x in RolesOf(hits) {
      var i :| 0 <= i < |hits| && RolesOf(hits)[i] == x;
      assert hits[i] in hits && hits[i] == k;
    }
    if k in keys {
      assert MemberIs(org, user)(k);
      assert k in hits;
      var i :| 0 <= i < |hits| && hits[i] == k;
      assert RolesOf(hits)[i] == x;
    }
  }

  lemma MembersScan(keys: set<Triple>, org: string, role: string)
    ensures UsersOf(Filter(RoleIs(org, role), SortedTriples(keys))) == SortedNames(SliceRole(keys, org, role))
  {
    var hits := Filter(RoleIs(org, role), SortedTriples(keys));
    TripleLessTotal();
    StrLessTotal();
    FilterAscending(TripleLess, RoleIs(org, role), SortedTriples(keys));
    forall i | 0 <= i < |hits| ensures hits[i].org == org && hits[i].role == role {
      assert hits[i] in hits;
    }
    forall i, j | 0 <= i < j < |hits| ensures StrLess(UsersOf(hits)[i], UsersOf(hits)[j]) {
      assert TripleLess(hits[i], hits[j]);
    }
    forall x ensures x in UsersOf(hits) <==> x in SliceRole(keys, org, role) { UserHit(keys, org, role, x); }
    SortedIsUnique(StrLess, UsersOf(hits), SliceRole(keys, org, role));
  }

  lemma UserHit(keys: set<Triple>, org: string, role: string, x: string)
    ensures x in UsersOf(Filter(RoleIs(org, role), SortedTriples(keys))) <==> x in SliceRole(keys, org, role)
  {
    var hits := Filter(RoleIs(org, role), SortedTriples(keys));
    var k := Triple(org, role, x);
    SliceRoleLookup(keys, org, role, x);
    if x in UsersOf(hits) {
      var i :| 0 <= i < |hits| && UsersOf(hits)[i] == x;
      assert hits[i] in hits && hits[i] == k;
    }
    if k in keys {
      assert RoleIs(org, role)(k);
      assert k in hits;
      var i :| 0 <= i < |hits| && hits[i] == k;
      assert UsersOf(hits)[i] == x;
    }
  }

  // ----- Finding a user in any org ------------------------------------------------------

  /** The answer a lookup across orgs should give: the user of the lowest org that has one. */
  ghost predicate LowestUser(users: map<Pair, Value>, name: string, found: Option<Located>) {
    match found
    case None => forall org :: Pair(org, name) !in users
    case Some(at) =>
      && Pair(at.org, name) in users && users[Pair(at.org, name)] == at.user
      && forall org :: Pair(org, name) in users ==> org == at.org || StrLess(at.org, org)
  }

  lemma LowestUserUnique(users: map<Pair, Value>, name: string, a: Option<Located>, b: Option<Located>)
    requires LowestUser(users, name, a) && LowestUser(users, name, b)
    ensures a == b
  {
    StrLessTotal();
  }

  lemma {:induction false} FirstUserIsLowest(keys: seq<Pair>, users: map<Pair, Value>, name: string)
    requires Ascending(PairLess, keys) && forall k :: k in keys ==> k in users
    requires forall org :: Pair(org, name) in users ==> Pair(org, name) in keys
    ensures LowestUser(users, name, FirstUser(keys, users, name))
  {
    if keys == [] {
    } else if keys[0].name == name {
      assert keys[0] == Pair(keys[0].org, name);
      forall org | Pair(org, name) in users ensures org == keys[0].org || StrLess(keys[0].org, org) {
        var i :| 0 <= i < |keys| && keys[i] == Pair(org, name);
        StrLessTotal();
        assert i == 0 || PairLess(keys[0], keys[i]);
      }
    } else {
      forall org | Pair(org, name) in users ensures Pair(org, name) in keys[1..] {
        assert keys == [keys[0]] + keys[1..];
      }
      FirstUserIsLowest(keys[1..], users, name);
    }
  }

  lemma {:induction false} FirstWithUserIsLowest(orgs: Orgs, sorted: seq<string>, users: map<Pair, Value>, name: string)
    requires Ascending(StrLess, sorted) && forall org :: org in sorted ==> org in orgs
    requires forall org :: OrgOf(orgs, org).users == Slice(users, org)
    requires forall org :: Pair(org, name) in users ==> org in sorted
    ensures LowestUser(users, name, FirstWithUser(orgs, sorted, name))
  {
    if sorted == [] {
    } else {
      var org := sorted[0];
      assert OrgOf(orgs, org).users == Slice(users, org);
      SliceLookup(users, org, name);
      if name in orgs[org].users {
        forall other | Pair(other, name) in users ensures other == org || StrLess(org, other) {
          var i :| 0 <= i < |sorted| && sorted[i] == other;
        }
      } else {
        forall other | Pair(other, name) in users ensures other in sorted[1..] {
          assert sorted == [sorted[0]] + sorted[1..];
        }
        FirstWithUserIsLowest(orgs, sorted[1..], users, name);
      }
    }
  }

  /** Both lookups find the user of the lowest org. */
  lemma FindUserSame(key: Grant -> string, orgs: Orgs, t: Tables, name: string)
    requires Related(key, orgs, t)
    ensures FirstWithUser(orgs, SortedNames(orgs.Keys), name) == FirstUser(SortedPairs(t.users.Keys), t.users, name)
    ensures LowestUser(t.users, name, FirstUser(SortedPairs(t.users.Keys), t.users, name))
  {
    FirstUserIsLowest(SortedPairs(t.users.Keys), t.users, name);
    forall org ensures OrgOf(orgs, org).users == Slice(t.users, org) { assert Agrees(orgs, t, org); }
    forall org | Pair(org, name) in t.users ensures org in SortedNames(orgs.Keys) {
      SliceLookup(t.users, org, name);
      assert name in OrgOf(orgs, org).users;
    }
    FirstWithUserIsLowest(orgs, SortedNames(orgs.Keys), t.users, name);
    LowestUserUnique(t.users, name, FirstWithUser(orgs, SortedNames(orgs.Keys), name),
                     FirstUser(SortedPairs(t.users.Keys), t.users, name));
  }
}
