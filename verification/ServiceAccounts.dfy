/** The operations on service accounts and their bindings, over the API server. */
module ServiceAccounts {
  import opened Wrappers
  import opened Names
  import opened Rbac
  import opened Api
  import opened Reconciler
  import opened Cluster

  /** What a caller hears of a reply: the failure's code, or the name it asked about. */
  function ResultOf(reply: Reply, name: string): Result<string, Code> {
    if reply.Failed? then Failure(reply.code) else Success(name)
  }

  /** One look at the account and, only if it is reported missing, one attempt to make it. */
  ghost predicate Upserted(log0: seq<AccountExchange>, log1: seq<AccountExchange>, name: string,
                           r: Result<string, Code>)
  {
    && |log0| < |log1| && log1[..|log0|] == log0
    && var got := log1[|log0|];
    && got.call == AskAccount(name)
    && if got.reply != Failed(NotFound) then |log1| == |log0| + 1 && r == ResultOf(got.reply, name)
       else
         && |log1| == |log0| + 2
         && log1[|log0| + 1].call == MakeAccount(name)
         && r == ResultOf(log1[|log0| + 1].reply, name)
  }

  /** A get of `key`, then, if it succeeded, an update of `key` to what `patch` makes of the object. */
  ghost predicate GotAndUpdated(log0: seq<Event>, s0: Store, key: Key, patch: Binding -> Binding,
                                log1: seq<Event>, s1: Store, r: Result<string, Code>)
  {
    && |log0| < |log1|
    && log1[..|log0|] == log0
    && var get := log1[|log0|];
    && get.Called? && get.call == Get(key) && (get.reply.Object? || get.reply.Failed?)
    && Served(s0, Get(key), get.fault, get.reply, s0)
    && if get.reply.Failed? then r == Failure(get.reply.code) && s1 == s0 && |log1| == |log0| + 1
       else
         && |log1| == |log0| + 2
         && var upd := log1[|log0| + 1];
         && upd.Called? && upd.call == Update(key, patch(get.reply.obj))
         && Served(s0, upd.call, upd.fault, upd.reply, s1)
         && r == ResultOf(upd.reply, key.name)
  }

  function RoleRenamed(role: string): Binding -> Binding {
    (b: Binding) => b.(roleRef := b.roleRef.(name := role))
  }

  function Rebound(roleRef: RoleRef, subject: Subject): Binding -> Binding {
    (b: Binding) => b.(roleRef := roleRef, subjects := [subject])
  }

  class ServiceAccountsService {
    const api: ApiServer
    const namespace: string

    constructor (api: ApiServer, namespace: string)
      ensures this.api == api && this.namespace == namespace
    {
      this.api := api;
      this.namespace := namespace;
    }

    function Account(username: string): Subject {
      Subject(SERVICE_ACCOUNT, username, namespace)
    }

    /** Looks the account up and creates it only if it is reported missing. */
    method UpsertServiceAccount(username: string) returns (r: Result<string, Code>)
      modifies api`accounts, api`accountFaults, api`accountLog
      ensures Upserted(old(api.accountLog), api.accountLog, username, r)
      ensures |api.accountLog| == |old(api.accountLog)| + 1 ==> api.accounts == old(api.accounts)
      ensures api.accounts == old(api.accounts) || api.accounts == old(api.accounts) + {username}
      ensures r.Success? ==> r.value == username && username in api.accounts
      ensures api.accountFaults == old(api.accountFaults) ==> r.Success?
      ensures api.accountFaults != old(api.accountFaults) ==> r == Failure(Unavailable)
      ensures api.accountFaults >= old(api.accountFaults)
    {
      var got := api.GetAccount(username);
      if got.Failed? {
        if got.code == NotFound {
          var made := api.CreateAccount(username);
          return if made.Failed? then Failure(made.code) else Success(username);
        }
        return Failure(got.code);
      }
      return Success(username);
    }

    method IssueToken(username: string) returns (r: Result<string, Code>)
      modifies api`issued, api`accountFaults, api`accountLog
      ensures exists reply :: api.accountLog == old(api.accountLog) + [AccountExchange(AskToken(username), reply)]
                && r == ResultOf(reply, username)
      ensures api.issued == old(api.issued)
        || (username in api.accounts && api.issued == old(api.issued) + [Issue(username, api.bindings, api.accounts)])
      ensures r.Success? ==> r.value == username && api.issued != old(api.issued)
      ensures r.Success? <==> api.accountFaults == old(api.accountFaults) && username in api.accounts
      ensures api.accountFaults >= old(api.accountFaults)
    {
      var made := api.CreateToken(username);
      r := if made.Failed? then Failure(made.code) else Success(username);
    }

    /** The listed bindings that have the account among their subjects. */
    method FilterBySubject(items: seq<Listed>, username: string) returns (filtered: seq<Listed>)
      ensures filtered == Mine(Account(username), items)
    {
      filtered := [];
      for i := 0 to |items|
        invariant filtered == Mine(Account(username), items[..i])
      {
        assert items[..i + 1][..i] == items[..i];
        var subjects := items[i].obj.subjects;
        ghost var before := filtered;
        for k := 0 to |subjects|
          invariant filtered == before && Account(username) !in subjects[..k]
        {
          if subjects[k].kind == SERVICE_ACCOUNT && subjects[k].name == username && subjects[k].ns == namespace {
            filtered := filtered + [items[i]];
            break;
          }
        }
      }
      assert items[..|items|] == items;
    }

    method GetClusterRoleBindings(username: string) returns (r: Result<seq<Listed>, Code>, ghost reply: Reply)
      modifies api`log
      ensures Recorded(old(api.log), api.bindings, List(ClusterWide), reply, api.log, api.bindings)
      ensures if reply.Items? then r == Success(Mine(Account(username), reply.items))
              else reply.Failed? && r == Failure(reply.code)
    {
      var listed := api.List(ClusterWide);
      reply := listed;
      if listed.Failed? {
        return Failure(listed.code), reply;
      }
      var filtered := FilterBySubject(listed.items, username);
      r := Success(filtered);
    }

    method CreateClusterRoleBinding(username: string, roleName: string, group: string)
      returns (r: Result<string, Code>, ghost reply: Reply)
      modifies api`bindings, api`log
      ensures var name := GenBindingName(username, roleName, group);
              Recorded(old(api.log), old(api.bindings),
                Create(Key.Cluster(name),
                  Binding(true, [Account(username)], RoleRef(RBAC_API_GROUP, CLUSTER_ROLE, roleName))),
                reply, api.log, api.bindings)
      ensures reply == Done || reply.Failed?
      ensures r == ResultOf(reply, GenBindingName(username, roleName, group))
    {
      var name := GenBindingName(username, roleName, group);
      var binding := Binding(true, [Account(username)], RoleRef(RBAC_API_GROUP, CLUSTER_ROLE, roleName));
      var made := api.Create(Key.Cluster(name), binding);
      reply := made;
      r := if made.Failed? then Failure(made.code) else Success(name);
    }

    method UpdateClusterRoleBinding(username: string, clusterRoleName: string, group: string)
      returns (r: Result<string, Code>)
      modifies api`bindings, api`log
      ensures GotAndUpdated(old(api.log), old(api.bindings),
                Key.Cluster(GenBindingName(username, clusterRoleName, group)),
                RoleRenamed(clusterRoleName),
                api.log, api.bindings, r)
    {
      var name := GenBindingName(username, clusterRoleName, group);
      var got := api.Get(Key.Cluster(name));
      if got.Failed? {
        return Failure(got.code);
      }
      var binding := got.obj.(roleRef := got.obj.roleRef.(name := clusterRoleName));
      var put := api.Update(Key.Cluster(name), binding);
      r := if put.Failed? then Failure(put.code) else Success(name);
    }

    method DeleteClusterRoleBinding(name: string) returns (r: Result<string, Code>, ghost reply: Reply)
      modifies api`bindings, api`log
      ensures Recorded(old(api.log), old(api.bindings), Delete(Key.Cluster(name)), reply, api.log, api.bindings)
      ensures reply == Done || reply.Failed?
      ensures r == ResultOf(reply, name)
    {
      var deleted := api.Delete(Key.Cluster(name));
      reply := deleted;
      r := if deleted.Failed? then Failure(deleted.code) else Success(name);
    }

    method GetRoleBindings(username: string) returns (r: Result<seq<Listed>, Code>, ghost reply: Reply)
      modifies api`log
      ensures Recorded(old(api.log), api.bindings, List(AllNamespaces), reply, api.log, api.bindings)
      ensures if reply.Items? then r == Success(Mine(Account(username), reply.items))
              else reply.Failed? && r == Failure(reply.code)
    {
      var listed := api.List(AllNamespaces);
      reply := listed;
      if listed.Failed? {
        return Failure(listed.code), reply;
      }
      var filtered := FilterBySubject(listed.items, username);
      r := Success(filtered);
    }

    method CreateRoleBinding(username: string, ns: string, group: string, roleRef: RoleRef)
      returns (r: Result<string, Code>, ghost reply: Reply)
      modifies api`bindings, api`log
      ensures var name := GenBindingName(username, roleRef.name, group);
              Recorded(old(api.log), old(api.bindings),
                Create(Namespaced(ns, name), Binding(true, [Account(username)], roleRef)),
                reply, api.log, api.bindings)
      ensures reply == Done || reply.Failed?
      ensures r == ResultOf(reply, GenBindingName(username, roleRef.name, group))
    {
      var name := GenBindingName(username, roleRef.name, group);
      var made := api.Create(Namespaced(ns, name), Binding(true, [Account(username)], roleRef));
      reply := made;
      r := if made.Failed? then Failure(made.code) else Success(name);
    }

    method UpdateRoleBinding(username: string, ns: string, roleRef: RoleRef, group: string)
      returns (r: Result<string, Code>)
      modifies api`bindings, api`log
      ensures GotAndUpdated(old(api.log), old(api.bindings),
                Namespaced(ns, GenBindingName(username, roleRef.name, group)),
                Rebound(roleRef, Account(username)),
                api.log, api.bindings, r)
    {
      var name := GenBindingName(username, roleRef.name, group);
      var got := api.Get(Namespaced(ns, name));
      if got.Failed? {
        return Failure(got.code);
      }
      var binding := got.obj.(roleRef := roleRef, subjects := [Account(username)]);
      var put := api.Update(Namespaced(ns, name), binding);
      r := if put.Failed? then Failure(put.code) else Success(name);
    }

    method DeleteRoleBinding(ns: string, name: string) returns (r: Result<string, Code>, ghost reply: Reply)
      modifies api`bindings, api`log
      ensures Recorded(old(api.log), old(api.bindings), Delete(Namespaced(ns, name)), reply, api.log, api.bindings)
      ensures reply == Done || reply.Failed?
      ensures r == ResultOf(reply, name)
    {
      var deleted := api.Delete(Namespaced(ns, name));
      reply := deleted;
      r := if deleted.Failed? then Failure(deleted.code) else Success(name);
    }
  }
}
