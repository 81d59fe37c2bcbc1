/**
  What the stores hold, told from the calls alone: every record is decided by the last call
  that names it.  Neither store's layout appears in these definitions, and both stores meet
  them after every sequence of calls.
 */
module StoreHistory {
  import opened Options
  import opened Orders
  import opened MetaCalls
  import opened EmbeddedStore
  import opened RedbStore
  import opened StoreRefinement
  import opened StoreAnswers
  import opened StoreTheorems

  function Earlier(calls: seq<Call>): seq<Call>
    requires calls != []
  { calls[..|calls| - 1] }

  function Latest(calls: seq<Call>): Call
    requires calls != []
  { calls[|calls| - 1] }

  /** The record last put under this name and not deleted since. */
  function LastPut(calls: seq<Call>, kind: Kind, org: string, name: string): Option<Value> {
    if calls == [] then None
    else if Latest(calls) == Delete(kind, org, name) then None
    else if Latest(calls).Put? && Latest(calls) == Put(kind, org, name, Latest(calls).value)
    then Some(Latest(calls).value)
    else LastPut(Earlier(calls), kind, org, name)
  }

  function LastBinding(calls: seq<Call>, org: string, name: string): Option<string> {
    if calls == [] then None
    else if Latest(calls) == DeleteBinding(org, name) then None
    else if Latest(calls).UpsertBinding? && Latest(calls).org == org && Latest(calls).name == name
    then Some(Latest(calls).binding)
    else LastBinding(Earlier(calls), org, name)
  }

  /** The config last set while the name was bound; rebinding keeps it, deleting drops it. */
  function LastConfig(calls: seq<Call>, org: string, name: string): Option<string> {
    if calls == [] then None
    else if Latest(calls) == DeleteBinding(org, name) then None
    else if Latest(calls).SetSourceConfig? && Latest(calls).org == org && Latest(calls).name == name
            && LastBinding(Earlier(calls), org, name).Some?
    then Some(Latest(calls).config)
    else LastConfig(Earlier(calls), org, name)
  }

  predicate RoleHeld(calls: seq<Call>, org: string, name: string) {
    calls != [] && (Latest(calls) == PutRole(org, name)
                    || (Latest(calls) != DeleteRole(org, name) && RoleHeld(Earlier(calls), org, name)))
  }

  predicate GrantHeld(calls: seq<Call>, org: string, grant: Grant) {
    calls != [] && (Latest(calls) == PutGrant(org, grant)
                    || (Latest(calls) != DeleteGrant(org, grant) && GrantHeld(Earlier(calls), org, grant)))
  }

  predicate MemberHeld(calls: seq<Call>, org: string, role: string, user: string) {
    calls != [] && (Latest(calls) == AddRoleMember(org, role, user)
                    || (Latest(calls) != RemoveRoleMember(org, role, user)
                        && MemberHeld(Earlier(calls), org, role, user)))
  }

  // ----- The JSON store -----------------------------------------------------------------

  function EmbeddedAfter(calls: seq<Call>): Orgs {
    if calls == [] then map[] else EmbeddedStore.Next(EmbeddedAfter(Earlier(calls)), Latest(calls))
  }

  function EntryOf(binding: Option<string>, config: Option<string>): Option<Entry> {
    if binding.None? then None else Some(Entry(binding.value, config))
  }

  function Find<V>(rows: map<string, V>, name: string): Option<V> { if name in rows then Some(rows[name]) else None }

  lemma {:induction false} EntryIsLast(calls: seq<Call>, org: string, name: string)
    ensures Find(OrgOf(EmbeddedAfter(calls), org).entries, name) ==
            EntryOf(LastBinding(calls, org, name), LastConfig(calls, org, name))
    ensures LastBinding(calls, org, name).None? ==> LastConfig(calls, org, name).None?
  {
    if calls != [] {
      EntryIsLast(Earlier(calls), org, name);
      NextAt(EmbeddedAfter(Earlier(calls)), Latest(calls), org);
    }
  }

  lemma {:induction false} RecordIsLast(calls: seq<Call>, kind: Kind, org: string, name: string)
    ensures Find(NamedIn(OrgOf(EmbeddedAfter(calls), org), kind), name) == LastPut(calls, kind, org, name)
  {
    if calls != [] {
      RecordIsLast(Earlier(calls), kind, org, name);
      NextAt(EmbeddedAfter(Earlier(calls)), Latest(calls), org);
    }
  }

  lemma {:induction false} RoleIsLast(calls: seq<Call>, org: string, name: string)
    ensures name in OrgOf(EmbeddedAfter(calls), org).roles <==> RoleHeld(calls, org, name)
  {
    if calls != [] {
      RoleIsLast(Earlier(calls), org, name);
      NextAt(EmbeddedAfter(Earlier(calls)), Latest(calls), org);
    }
  }

  lemma {:induction false} GrantIsLast(calls: seq<Call>, org: string, grant: Grant)
    ensures grant in OrgOf(EmbeddedAfter(calls), org).grants <==> GrantHeld(calls, org, grant)
  {
    if calls != [] {
      GrantIsLast(Earlier(calls), org, grant);
      NextAt(EmbeddedAfter(Earlier(calls)), Latest(calls), org);
    }
  }

  /** Role `role` is a key exactly while it has a member. */
  lemma {:induction false} MemberIsLast(calls: seq<Call>, org: string, role: string, user: string)
    ensures HasMember(OrgOf(EmbeddedAfter(calls), org).members, user, role) <==> MemberHeld(calls, org, role, user)
  {
    if calls != [] {
      MemberIsLast(Earlier(calls), org, role, user);
      NextAt(EmbeddedAfter(Earlier(calls)), Latest(calls), org);
    }
  }

  // ----- Both stores --------------------------------------------------------------------

  function RedbAfter(key: Grant -> string, calls: seq<Call>): Tables {
    if calls == [] then EmptyTables else RedbStore.Next(key, RedbAfter(key, Earlier(calls)), Latest(calls))
  }

  lemma {:induction false} RelatedAfter(key: Grant -> string, calls: seq<Call>)
    requires Injective(key)
    ensures Related(key, EmbeddedAfter(calls), RedbAfter(key, calls))
  {
    if calls == [] {
      EmptyRelated(key);
    } else {
      RelatedAfter(key, Earlier(calls));
      CallRelated(key, EmbeddedAfter(Earlier(calls)), RedbAfter(key, Earlier(calls)), Latest(calls));
    }
  }

  /** A reply that both stores give after these calls. */
  predicate BothAnswer(key: Grant -> string, calls: seq<Call>, call: Call, reply: Reply) {
    EmbeddedStore.Answer(EmbeddedAfter(calls), call) == reply == RedbStore.Answer(key, RedbAfter(key, calls), call)
  }

  /** After any calls, both stores return the record last put and not deleted since. */
  lemma GetReturnsLastPut(key: Grant -> string, calls: seq<Call>, kind: Kind, org: string, name: string)
    requires Injective(key)
    ensures BothAnswer(key, calls, Get(kind, org, name), Record(LastPut(calls, kind, org, name)))
  {
    RelatedAfter(key, calls);
    NamedAnswers(key, EmbeddedAfter(calls), RedbAfter(key, calls), Get(kind, org, name));
    RecordIsLast(calls, kind, org, name);
  }

  /** After any calls, both list exactly the bound names with their last binding. */
  lemma BindingsAreLast(key: Grant -> string, calls: seq<Call>, org: string) returns (bindings: map<string, string>)
    requires Injective(key)
    ensures BothAnswer(key, calls, ListBindings(org), Bindings(bindings))
    ensures forall name :: Find(bindings, name) == LastBinding(calls, org, name)
  {
    RelatedAfter(key, calls);
    EntryListings(key, EmbeddedAfter(calls), RedbAfter(key, calls), ListBindings(org));
    bindings := BindingsOf(OrgOf(EmbeddedAfter(calls), org).entries);
    forall name ensures Find(bindings, name) == LastBinding(calls, org, name) { EntryIsLast(calls, org, name); }
  }

  /** After any calls, both list exactly the last configs of bound names. */
  lemma ConfigsAreLast(key: Grant -> string, calls: seq<Call>, org: string) returns (configs: map<string, string>)
    requires Injective(key)
    ensures BothAnswer(key, calls, ListSourceConfigs(org), Configs(configs))
    ensures forall name :: Find(configs, name) == LastConfig(calls, org, name)
  {
    RelatedAfter(key, calls);
    EntryListings(key, EmbeddedAfter(calls), RedbAfter(key, calls), ListSourceConfigs(org));
    configs := ConfigsOf(OrgOf(EmbeddedAfter(calls), org).entries);
    forall name ensures Find(configs, name) == LastConfig(calls, org, name) { EntryIsLast(calls, org, name); }
  }

  /** After any calls, both list the roles put and not deleted since, sorted. */
  lemma RolesAreLast(key: Grant -> string, calls: seq<Call>, org: string) returns (roles: seq<string>)
    requires Injective(key)
    ensures BothAnswer(key, calls, ListRoles(org), Names(roles))
    ensures Ascending(StrLess, roles) && forall name :: name in roles <==> RoleHeld(calls, org, name)
  {
    RelatedAfter(key, calls);
    RoleAnswers(key, EmbeddedAfter(calls), RedbAfter(key, calls), ListRoles(org));
    roles := SortedNames(OrgOf(EmbeddedAfter(calls), org).roles);
    forall name ensures name in roles <==> RoleHeld(calls, org, name) { RoleIsLast(calls, org, name); }
  }

  /** After any calls, both list the roles a user was added to and not removed from since, sorted. */
  lemma RolesForUserAreLast(key: Grant -> string, calls: seq<Call>, org: string, user: string)
    returns (roles: seq<string>)
    requires Injective(key)
    ensures BothAnswer(key, calls, ListRolesForUser(org, user), Names(roles))
    ensures Ascending(StrLess, roles) && forall role :: role in roles <==> MemberHeld(calls, org, role, user)
  {
    RelatedAfter(key, calls);
    MemberAnswers(key, EmbeddedAfter(calls), RedbAfter(key, calls), ListRolesForUser(org, user));
    var members := OrgOf(EmbeddedAfter(calls), org).members;
    roles := SortedNames(RolesWith(members, user));
    forall role ensures role in roles <==> MemberHeld(calls, org, role, user) {
      MemberIsLast(calls, org, role, user);
      assert role in RolesWith(members, user) <==> HasMember(members, user, role);
    }
  }

  /** After any calls, both stores list the grants given and not revoked since. */
  lemma GrantsAreLast(key: Grant -> string, calls: seq<Call>, org: string)
    requires Injective(key)
    ensures var e := EmbeddedStore.Answer(EmbeddedAfter(calls), ListGrants(org));
            var r := RedbStore.Answer(key, RedbAfter(key, calls), ListGrants(org));
            && e.Grants? && r.Grants?
            && (forall g :: g in e.grants <==> GrantHeld(calls, org, g))
            && (forall g :: g in r.grants <==> GrantHeld(calls, org, g))
  {
    RelatedAfter(key, calls);
    ListGrantsAnswers(key, EmbeddedAfter(calls), RedbAfter(key, calls), org);
    var e := EmbeddedStore.Answer(EmbeddedAfter(calls), ListGrants(org));
    forall g ensures g in e.grants <==> GrantHeld(calls, org, g) { GrantIsLast(calls, org, g); }
  }

  function ListedNames(rows: seq<Listed>): seq<string> { seq(|rows|, i requires 0 <= i < |rows| => rows[i].name) }

  /**
    A user's row shows exactly the superuser flag, a policy's its kind, a data product's the
    whole record, and a secret's its name alone.
   */
  predicate Shows(shown: Shown, v: Value) {
    && (v.User? ==> shown == UserShown(v.superuser))
    && (v.Policy? ==> shown == PolicyShown(v.kind))
    && (v.Product? ==> shown == ProductShown(v))
    && (v.Secret? ==> shown == NameOnly)
  }

  /** After any calls, both list a kind's records by name, showing of each last put what that kind shows. */
  lemma ListingIsLast(key: Grant -> string, calls: seq<Call>, kind: Kind, org: string) returns (rows: seq<Listed>)
    requires Injective(key)
    ensures BothAnswer(key, calls, List(kind, org), Listing(rows))
    ensures Ascending(StrLess, ListedNames(rows))
    ensures forall name :: name in ListedNames(rows) <==> LastPut(calls, kind, org, name).Some?
    ensures forall i :: 0 <= i < |rows| ==>
              LastPut(calls, kind, org, rows[i].name).Some?
              && Shows(rows[i].shown, LastPut(calls, kind, org, rows[i].name).value)
  {
    RelatedAfter(key, calls);
    ListAnswers(key, EmbeddedAfter(calls), RedbAfter(key, calls), kind, org);
    var records := NamedIn(OrgOf(EmbeddedAfter(calls), org), kind);
    rows := ListingOf(records);
    assert ListedNames(rows) == SortedNames(records.Keys);
    forall name ensures name in records.Keys <==> LastPut(calls, kind, org, name).Some? {
      RecordIsLast(calls, kind, org, name);
    }
    forall i | 0 <= i < |rows|
      ensures LastPut(calls, kind, org, rows[i].name).Some?
      ensures Shows(rows[i].shown, LastPut(calls, kind, org, rows[i].name).value)
    {
      assert ListedNames(rows)[i] in SortedNames(records.Keys);
      RecordIsLast(calls, kind, org, rows[i].name);
    }
  }

  /** After any calls, both find a user in the lowest org where one of that name was put and not deleted since. */
  lemma FindUserIsLast(key: Grant -> string, calls: seq<Call>, name: string) returns (found: Option<Located>)
    requires Injective(key)
    ensures BothAnswer(key, calls, FindUser(name), Match(found))
    ensures found.None? ==> forall org :: LastPut(calls, Users, org, name).None?
    ensures found.Some? ==>
              && LastPut(calls, Users, found.value.org, name) == Some(found.value.user)
              && forall org :: LastPut(calls, Users, org, name).Some? ==>
                   org == found.value.org || StrLess(found.value.org, org)
  {
    var t := RedbAfter(key, calls);
    RelatedAfter(key, calls);
    FindUserSame(key, EmbeddedAfter(calls), t, name);
    found := FirstUser(SortedPairs(t.users.Keys), t.users, name);
    forall org
      ensures LastPut(calls, Users, org, name) ==
              if Pair(org, name) in t.users then Some(t.users[Pair(org, name)]) else None
    {
      NamedSlice(key, EmbeddedAfter(calls), t, Users, org);
      SliceLookup(t.users, org, name);
      RecordIsLast(calls, Users, org, name);
    }
  }

  /** After any calls, both list the users added to a role and not removed since, sorted. */
  lemma RoleMembersAreLast(key: Grant -> string, calls: seq<Call>, org: string, role: string)
    returns (users: seq<string>)
    requires Injective(key)
    ensures BothAnswer(key, calls, ListRoleMembers(org, role), Names(users))
    ensures Ascending(StrLess, users) && forall user :: user in users <==> MemberHeld(calls, org, role, user)
  {
    RelatedAfter(key, calls);
    MemberAnswers(key, EmbeddedAfter(calls), RedbAfter(key, calls), ListRoleMembers(org, role));
    var members := OrgOf(EmbeddedAfter(calls), org).members;
    users := SortedNames(if role in members then members[role] else {});
    forall user ensures user in users <==> MemberHeld(calls, org, role, user) {
      MemberIsLast(calls, org, role, user);
    }
  }

  // ----- Writes -------------------------------------------------------------------------

  /** What a write answers, told from the calls before it. */
  function WriteReply(calls: seq<Call>, call: Call): Reply {
    match call
    case UpsertBinding(org, name, _) => Previous(LastBinding(calls, org, name))
    case DeleteBinding(org, name) => Flag(LastBinding(calls, org, name).Some?)
    case Delete(kind, org, name) => Flag(LastPut(calls, kind, org, name).Some?)
    case DeleteRole(org, name) => Flag(RoleHeld(calls, org, name))
    case DeleteGrant(org, grant) => Flag(GrantHeld(calls, org, grant))
    case RemoveRoleMember(org, role, user) => Flag(MemberHeld(calls, org, role, user))
    case _ => Done
  }

  predicate IsWrite(call: Call) {
    || call.UpsertBinding? || call.SetSourceConfig? || call.DeleteBinding? || call.Put? || call.Delete?
    || call.PutRole? || call.DeleteRole? || call.PutGrant? || call.DeleteGrant?
    || call.AddRoleMember? || call.RemoveRoleMember?
  }

  lemma EmbeddedWriteReply(calls: seq<Call>, call: Call)
    requires IsWrite(call)
    ensures EmbeddedStore.Answer(EmbeddedAfter(calls), call) == WriteReply(calls, call)
  {
    match call
    case UpsertBinding(org, name, _) => EntryIsLast(calls, org, name);
    case DeleteBinding(org, name) => EntryIsLast(calls, org, name);
    case Delete(kind, org, name) => RecordIsLast(calls, kind, org, name);
    case DeleteRole(org, name) => RoleIsLast(calls, org, name);
    case DeleteGrant(org, grant) => GrantIsLast(calls, org, grant);
    case RemoveRoleMember(org, role, user) => MemberIsLast(calls, org, role, user);
    case _ =>
  }

  /** After any calls, both stores answer a write with what it replaced or whether it removed anything. */
  lemma WritesAnswerFromHistory(key: Grant -> string, calls: seq<Call>, call: Call)
    requires Injective(key) && IsWrite(call)
    ensures BothAnswer(key, calls, call, WriteReply(calls, call))
  {
    RelatedAfter(key, calls);
    CallAnswers(key, EmbeddedAfter(calls), RedbAfter(key, calls), call);
    EmbeddedWriteReply(calls, call);
  }

  /**
    The change a call announces, told from the calls before it: binding a name always, its
    config while it is bound, and unbinding it while it is bound.
   */
  function ChangeOf(calls: seq<Call>, call: Call): Option<Change> {
    match call
    case UpsertBinding(org, name, _) => Some(Change(org, name, Upserted))
    case SetSourceConfig(org, name, _) =>
      if LastBinding(calls, org, name).Some? then Some(Change(org, name, Upserted)) else None
    case DeleteBinding(org, name) =>
      if LastBinding(calls, org, name).Some? then Some(Change(org, name, Deleted)) else None
    case _ => None
  }

  function Events(calls: seq<Call>): seq<Change> {
    if calls == [] then []
    else
      var change := ChangeOf(Earlier(calls), Latest(calls));
      Events(Earlier(calls)) + if change.Some? then [change.value] else []
  }

  lemma ChangeIsAnnounced(key: Grant -> string, calls: seq<Call>, call: Call)
    requires Injective(key)
    ensures var change := ChangeOf(calls, call);
            EmbeddedStore.Announced(EmbeddedAfter(calls), call) == RedbStore.Announced(RedbAfter(key, calls), call)
            == if change.Some? then [change.value] else []
  {
    RelatedAfter(key, calls);
    CallAnswers(key, EmbeddedAfter(calls), RedbAfter(key, calls), call);
    if call.SetSourceConfig? || call.DeleteBinding? { EntryIsLast(calls, call.org, call.name); }
  }

  /** Running `calls` after `before` announces what they add to the events. */
  predicate Tells(before: seq<Call>, calls: seq<Call>, changes: seq<Change>) {
    Events(before + calls) == Events(before) + changes
  }

  lemma AfterOneMore(key: Grant -> string, before: seq<Call>, call: Call)
    requires Injective(key)
    ensures EmbeddedAfter(before + [call]) == EmbeddedStore.Next(EmbeddedAfter(before), call)
    ensures Tells(before, [call], EmbeddedStore.Announced(EmbeddedAfter(before), call))
  {
    assert Earlier(before + [call]) == before && Latest(before + [call]) == call;
    ChangeIsAnnounced(key, before, call);
  }

  lemma TraceHead(orgs: Orgs, calls: seq<Call>)
    requires calls != []
    ensures EmbeddedTrace(orgs, calls).changes ==
            EmbeddedStore.Announced(orgs, calls[0])
            + EmbeddedTrace(EmbeddedStore.Next(orgs, calls[0]), calls[1..]).changes
  {}

  lemma TellsMore(before: seq<Call>, calls: seq<Call>, first: seq<Change>, rest: seq<Change>)
    requires calls != [] && Tells(before, [calls[0]], first) && Tells(before + [calls[0]], calls[1..], rest)
    ensures Tells(before, calls, first + rest)
  {
    assert before + calls == before + [calls[0]] + calls[1..];
  }

  lemma {:induction false} EmbeddedTraceFrom(key: Grant -> string, before: seq<Call>, calls: seq<Call>)
    requires Injective(key)
    ensures Tells(before, calls, EmbeddedTrace(EmbeddedAfter(before), calls).changes)
    decreases |calls|
  {
    if calls == [] {
      assert before + calls == before;
    } else {
      var orgs, call := EmbeddedAfter(before), calls[0];
      AfterOneMore(key, before, call);
      EmbeddedTraceFrom(key, before + [call], calls[1..]);
      TraceHead(orgs, calls);
      TellsMore(before, calls, EmbeddedStore.Announced(orgs, call),
                EmbeddedTrace(EmbeddedStore.Next(orgs, call), calls[1..]).changes);
    }
  }

  /** From empty, both stores announce exactly the changes the calls tell, in order. */
  lemma FeedIsTheHistory(key: Grant -> string, calls: seq<Call>)
    requires Injective(key)
    ensures EmbeddedTrace(map[], calls).changes == Events(calls) == RedbTrace(key, EmptyTables, calls).changes
  {
    EmbeddedTraceFrom(key, [], calls);
    assert [] + calls == calls;
    RedbRefinesEmbedded(key, calls);
  }

  // ----- Tenants ------------------------------------------------------------------------

  lemma AnswerDependsOnOrg(a: Orgs, b: Orgs, call: Call)
    requires Scoped(call) && OrgOf(a, call.org) == OrgOf(b, call.org)
    ensures EmbeddedStore.Answer(a, call) == EmbeddedStore.Answer(b, call)
    ensures EmbeddedStore.Announced(a, call) == EmbeddedStore.Announced(b, call)
  {}

  /** The keys a scan of one org meets depend on that org's keys alone. */
  lemma OrgKeysDepend(a: set<Pair>, b: set<Pair>, org: string)
    requires forall k: Pair :: k.org == org ==> (k in a <==> k in b)
    ensures OrgKeys(a, org) == OrgKeys(b, org)
  {
    PairLessTotal();
    FilterAscending(PairLess, OwnedBy(org), SortedPairs(a));
    FilterAscending(PairLess, OwnedBy(org), SortedPairs(b));
    SameElementsSame(PairLess, OrgKeys(a, org), OrgKeys(b, org));
  }

  predicate SameFor(a: map<Pair, Grant>, b: map<Pair, Grant>, org: string) {
    && (forall k :: k in a && k.org == org ==> k in b && b[k] == a[k])
    && (forall k :: k in b && k.org == org ==> k in a)
  }

  lemma GrantRowsDepend(a: map<Pair, Grant>, b: map<Pair, Grant>, org: string)
    requires SameFor(a, b, org)
    ensures GrantsOf(OrgKeys(a.Keys, org), a) == GrantsOf(OrgKeys(b.Keys, org), b)
  {
    OrgKeysDepend(a.Keys, b.Keys, org);
    var keys := OrgKeys(a.Keys, org);
    forall i | 0 <= i < |keys| ensures a[keys[i]] == b[keys[i]] { assert keys[i] in keys; }
  }

  lemma GrantListing(key: Grant -> string, t: Tables, org: string)
    ensures RedbStore.Answer(key, t, ListGrants(org)) == Grants(GrantsOf(OrgKeys(t.grants.Keys, org), t.grants))
  {}

  lemma GrantScanDepends(key: Grant -> string, t: Tables, call: Call, org: string)
    requires Scoped(call) && call.org != org
    ensures RedbStore.Answer(key, RedbStore.Next(key, t, call), ListGrants(org)) ==
            RedbStore.Answer(key, t, ListGrants(org))
  {
    assert SameFor(NextGrants(key, t.grants, call), t.grants, org);
    GrantRowsDepend(NextGrants(key, t.grants, call), t.grants, org);
    GrantListing(key, t, org);
    GrantListing(key, RedbStore.Next(key, t, call), org);
  }

  /** After any calls, a call on one org changes no answer and no announcement of either store for another org. */
  lemma OrgsAreIsolated(key: Grant -> string, calls: seq<Call>, call: Call, other: Call)
    requires Injective(key) && Scoped(call) && Scoped(other) && call.org != other.org
    ensures var orgs, t := EmbeddedAfter(calls), RedbAfter(key, calls);
            && EmbeddedStore.Answer(EmbeddedStore.Next(orgs, call), other) == EmbeddedStore.Answer(orgs, other)
            && RedbStore.Answer(key, RedbStore.Next(key, t, call), other) == RedbStore.Answer(key, t, other)
            && EmbeddedStore.Announced(EmbeddedStore.Next(orgs, call), other) == EmbeddedStore.Announced(orgs, other)
            && RedbStore.Announced(RedbStore.Next(key, t, call), other) == RedbStore.Announced(t, other)
  {
    var orgs, t := EmbeddedAfter(calls), RedbAfter(key, calls);
    NextAt(orgs, call, other.org);
    AnswerDependsOnOrg(EmbeddedStore.Next(orgs, call), orgs, other);
    RelatedAfter(key, calls);
    CallRelated(key, orgs, t, call);
    CallAnswers(key, orgs, t, other);
    CallAnswers(key, EmbeddedStore.Next(orgs, call), RedbStore.Next(key, t, call), other);
    if other.ListGrants? { GrantScanDepends(key, t, call, other.org); }
  }
}
