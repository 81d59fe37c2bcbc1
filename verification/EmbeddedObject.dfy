/**
  The JSON store as an object: the nested maps under the lock, changed in place.  Every
  write reaches the file here; what a failed or interrupted write leaves is the subject of
  `Durability`.
 */
module EmbeddedObject {
  import opened Options
  import opened MetaCalls
  import opened EmbeddedStore

  class EmbeddedMetaStore {
    var orgs: Orgs
    var feed: seq<Change>

    constructor ()
      ensures orgs == map[] && feed == []
    {
      orgs := map[];
      feed := [];
    }

    method Emit(org: string, name: string, kind: ChangeKind)
      modifies this`feed
      ensures feed == old(feed) + [Change(org, name, kind)]
    {
      feed := feed + [Change(org, name, kind)];
    }

    /** `org_mut`: an org is created by the first write to it. */
    method OrgMut(org: string) returns (o: OrgState)
      modifies this`orgs
      ensures o == OrgOf(old(orgs), org) && orgs == old(orgs)[org := o]
    {
      if org !in orgs { orgs := orgs[org := EmptyOrg]; }
      o := orgs[org];
    }

    method UpsertBinding(org: string, name: string, binding: string) returns (previous: Option<string>)
      modifies this
      ensures var call := Call.UpsertBinding(org, name, binding);
              && orgs == Next(old(orgs), call)
              && Previous(previous) == Answer(old(orgs), call)
              && feed == old(feed) + Announced(old(orgs), call)
    {
      var o := OrgMut(org);
      var config := None;
      previous := None;
      if name in o.entries {
        previous := Some(o.entries[name].binding);
        config := o.entries[name].config;
      }
      orgs := orgs[org := o.(entries := o.entries[name := Entry(binding, config)])];
      Emit(org, name, Upserted);
    }

    method SetSourceConfig(org: string, name: string, config: string)
      modifies this
      ensures var call := Call.SetSourceConfig(org, name, config);
              orgs == Next(old(orgs), call) && feed == old(feed) + Announced(old(orgs), call)
    {
      if org !in orgs || name !in orgs[org].entries { return; }
      var o := orgs[org];
      orgs := orgs[org := o.(entries := o.entries[name := Entry(o.entries[name].binding, Some(config))])];
      Emit(org, name, Upserted);
    }

    method DeleteBinding(org: string, name: string) returns (existed: bool)
      modifies this
      ensures var call := Call.DeleteBinding(org, name);
              && orgs == Next(old(orgs), call)
              && Flag(existed) == Answer(old(orgs), call)
              && feed == old(feed) + Announced(old(orgs), call)
    {
      existed := org in orgs && name in orgs[org].entries;
      if existed {
        orgs := orgs[org := orgs[org].(entries := orgs[org].entries - {name})];
        Emit(org, name, Deleted);
      } else if org in orgs {
        assert orgs[org].entries - {name} == orgs[org].entries;
      }
    }

    method PutNamed(kind: Kind, org: string, name: string, value: Value)
      modifies this`orgs
      ensures orgs == Next(old(orgs), Put(kind, org, name, value))
    {
      var o := OrgMut(org);
      orgs := orgs[org := WithNamed(o, kind, NamedIn(o, kind)[name := value])];
    }

    method DeleteNamed(kind: Kind, org: string, name: string) returns (existed: bool)
      modifies this`orgs
      ensures orgs == Next(old(orgs), Delete(kind, org, name))
      ensures Flag(existed) == Answer(old(orgs), Delete(kind, org, name))
    {
      existed := org in orgs && name in NamedIn(orgs[org], kind);
      if existed {
        orgs := orgs[org := WithNamed(orgs[org], kind, NamedIn(orgs[org], kind) - {name})];
      } else if org in orgs {
        assert NamedIn(orgs[org], kind) - {name} == NamedIn(orgs[org], kind);
      }
    }

    method AddRoleMember(org: string, role: string, user: string)
      modifies this`orgs
      ensures orgs == Next(old(orgs), Call.AddRoleMember(org, role, user))
    {
      var o := OrgMut(org);
      var members := if role in o.members then o.members[role] else {};
      orgs := orgs[org := o.(members := o.members[role := members + {user}])];
    }

    method RemoveRoleMember(org: string, role: string, user: string) returns (existed: bool)
      modifies this`orgs
      ensures orgs == Next(old(orgs), Call.RemoveRoleMember(org, role, user))
      ensures Flag(existed) == Answer(old(orgs), Call.RemoveRoleMember(org, role, user))
    {
      existed := org in orgs && role in orgs[org].members && user in orgs[org].members[role];
      if existed {
        var members := orgs[org].members;
        members := members[role := members[role] - {user}];
        if members[role] == {} { members := members - {role}; }
        orgs := orgs[org := orgs[org].(members := members)];
        assert members == WithoutMember(old(orgs)[org].members, role, user);
      }
    }

    method FindUser(name: string) returns (found: Option<Located>)
      ensures Match(found) == Answer(orgs, Call.FindUser(name))
    {
      var sorted := SortedNames(orgs.Keys);
      assert sorted[0..] == sorted;
      for i := 0 to |sorted|
        invariant FirstWithUser(orgs, sorted, name) == FirstWithUser(orgs, sorted[i..], name)
      {
        assert sorted[i] in sorted && sorted[i..][1..] == sorted[i + 1..];
        if name in orgs[sorted[i]].users { return Some(Located(sorted[i], orgs[sorted[i]].users[name])); }
      }
      found := None;
    }
  }
}
