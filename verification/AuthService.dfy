/** The authentication service: the reconciler's loops and the request that runs them.

The methods below are the program; the ghost trace they keep shows each of them to be a run of the
protocol in module Reconciler, so every property of runs is a property of these methods. */
module AuthService {
  import opened Wrappers
  import opened Names
  import opened Rbac
  import opened Api
  import opened Reconciler
  import opened Safety
  import opened Convergence
  import opened Goals
  import opened Outcomes
  import opened Foreign
  import opened Wanted
  import opened Cluster
  import opened ServiceAccounts
  import opened GroupBindings

  /** A Go map from binding names to bindings, shared by reference and emptied in place. */
  class BindingIndex {
    var entries: map<string, Listed>

    constructor ()
      ensures entries == map[]
    {
      entries := map[];
    }
  }

  function ByName(items: seq<Listed>): map<string, Listed> {
    if items == [] then map[]
    else
      var x := items[|items| - 1];
      ByName(items[..|items| - 1])[x.key.name := x]
  }

  function Slots(scope: Scope, entries: map<string, Listed>): Index {
    map n | n in entries :: Slot(scope, n) := entries[n]
  }

  function Both(cluster: map<string, Listed>, roles: map<string, Listed>): Index {
    Slots(ClusterWide, cluster) + Slots(AllNamespaces, roles)
  }

  predicate WellKeyed(scope: Scope, entries: map<string, Listed>) {
    forall n | n in entries :: entries[n].key.name == n && ScopeOf(entries[n].key) == scope
  }

  lemma SlotsPut(scope: Scope, entries: map<string, Listed>, x: Listed)
    ensures Slots(scope, entries[x.key.name := x]) == Slots(scope, entries)[Slot(scope, x.key.name) := x]
  {
  }

  lemma {:induction false} ByNameIsIndexed(scope: Scope, items: seq<Listed>)
    requires forall x | x in items :: ScopeOf(x.key) == scope
    ensures Slots(scope, ByName(items)) == Indexed(items) && WellKeyed(scope, ByName(items))
  {
    if items != [] {
      var front, x := items[..|items| - 1], items[|items| - 1];
      assert x in items;
      hide Slots;
      ByNameIsIndexed(scope, front);
      SlotsPut(scope, ByName(front), x);
    }
  }

  lemma SlotsMeaning(scope: Scope, entries: map<string, Listed>, n: string)
    ensures Slots(scope, entries - {n}) == Slots(scope, entries) - {Slot(scope, n)}
    ensures Slot(scope, n) in Slots(scope, entries) <==> n in entries
    ensures n in entries ==> Slots(scope, entries)[Slot(scope, n)] == entries[n]
    ensures forall sl | sl in Slots(scope, entries) :: sl.scope == scope
  {
  }

  lemma BothWithoutCluster(cluster: map<string, Listed>, roles: map<string, Listed>, n: string)
    ensures Both(cluster - {n}, roles) == Both(cluster, roles) - {Slot(ClusterWide, n)}
    ensures Slot(ClusterWide, n) in Both(cluster, roles) <==> n in cluster
    ensures n in cluster ==> Both(cluster, roles)[Slot(ClusterWide, n)] == cluster[n]
  {
    hide Slots;
    SlotsMeaning(ClusterWide, cluster, n);
    SlotsMeaning(AllNamespaces, roles, n);
  }

  lemma BothWithoutRole(cluster: map<string, Listed>, roles: map<string, Listed>, n: string)
    ensures Both(cluster, roles - {n}) == Both(cluster, roles) - {Slot(AllNamespaces, n)}
    ensures Slot(AllNamespaces, n) in Both(cluster, roles) <==> n in roles
    ensures n in roles ==> Both(cluster, roles)[Slot(AllNamespaces, n)] == roles[n]
  {
    hide Slots;
    SlotsMeaning(ClusterWide, cluster, n);
    SlotsMeaning(AllNamespaces, roles, n);
  }

  /** The events that are calls. */
  function CallsOf(es: seq<Event>): seq<Event> {
    if es == [] then []
    else CallsOf(es[..|es| - 1]) + if es[|es| - 1].Called? then [es[|es| - 1]] else []
  }

  lemma CallsOneMore(es: seq<Event>, e: Event)
    ensures CallsOf(es + [e]) == CallsOf(es) + if e.Called? then [e] else []
  {
    assert (es + [e])[..|es|] == es;
  }

  lemma {:induction false} CleanCalls(es: seq<Event>)
    requires AllClean(CallsOf(es))
    ensures AllClean(es)
  {
    if es != [] {
      var front, e := es[..|es| - 1], es[|es| - 1];
      assert es == front + [e];
      forall x | x in CallsOf(front) ensures x.Clean() {
        assert x in CallsOf(es);
      }
      CleanCalls(front);
      if e.Called? {
        assert e in CallsOf(es);
      }
    }
  }

  /** No call recorded since `before` met a fault. */
  predicate CleanSince(before: seq<Event>, now: seq<Event>) {
    |before| <= |now| && AllClean(now[|before|..])
  }

  /** What holds between the stores before and after a reconciliation, given whether it met no fault
      and whether it reported success. */
  ghost predicate Lawful(job: Job, s0: Store, s: Store, clean: bool, ok: bool) {
    && Held(job, s0) * Targets(job) <= Held(job, s) <= Held(job, s0) + Targets(job)
    && (ok ==>
          && CanSucceed(job, s0) && ClusterExact(job, s)
          && (RoleExact(job, s) <==> OneNamespacePerName(job, s0)))
    && (forall k | k in s0 && k !in Held(job, s0) && !Same(s0, s, k) :: Exposed(job, s0, k))
    && (clean && MustSucceed(job, s0) ==> ok)
    && (clean && Ready(job, s0) ==> ok && s == Goal(job, s0))
    && (clean && OneCopy(job, s0) ==>
          && (ok <==> CanSucceed(job, s0))
          && (forall k | k in s0 && k !in Held(job, s0) && Exposed(job, s0, k) :: !Same(s0, s, k)))
  }

  lemma ReachableIsEnough(job: Job, s0: Store)
    ensures CanSucceed(job, s0) <==> Reachable(job, s0, |job.wants|)
  {
  }

  lemma SuccessWasPossible(job: Job, cs: seq<Config>, es: seq<Event>)
    requires CompleteRun(job, cs, es)
    ensures cs[|es|].proc.err == Succeeded ==> CanSucceed(job, cs[0].store)
    ensures AllClean(es) && MustSucceed(job, cs[0].store) ==> cs[|es|].proc.err == Succeeded
  {
    hide Passes, Possible, CanSucceed, MustSucceed;
    if cs[|es|].proc.err == Succeeded {
      SuccessIsClean(job, cs, es);
    }
    if AllClean(es) {
      var ix0 := SuccessCharacterised(job, cs, es);
      PassToBetween(job, cs[0].store, ix0, |job.wants|);
      ReachableIsEnough(job, cs[0].store);
    }
  }

  lemma RunIsLawful(job: Job, cs: seq<Config>, es: seq<Event>, clean: bool)
    requires CompleteRun(job, cs, es) && (clean ==> AllClean(es))
    ensures Lawful(job, cs[0].store, cs[|es|].store, clean, cs[|es|].proc.err == Succeeded)
  {
    hide OneCopy, CanSucceed, MustSucceed, Exposed, Passes, Ready, Goal, ClusterExact, RoleExact;
    hide OneNamespacePerName, Held, Targets, Possible;
    var s0, s := cs[0].store, cs[|es|].store;
    Sandwich(job, cs, es, |es|);
    SuccessWasPossible(job, cs, es);
    if cs[|es|].proc.err == Succeeded {
      ClusterConvergence(job, cs, es);
      RoleConvergence(job, cs, es);
    }
    if clean && Ready(job, s0) {
      ReachesGoal(job, cs, es);
    }
    if clean && OneCopy(job, s0) {
      SuccessByStore(job, cs, es);
    }
    forall k | k in s0 && k !in Held(job, s0)
      ensures !Same(s0, s, k) ==> Exposed(job, s0, k)
      ensures clean && OneCopy(job, s0) && Exposed(job, s0, k) ==> !Same(s0, s, k)
    {
      ForeignKept(job, cs, es, |es|, k);
      if clean {
        var ix0, d := ForeignAfterRun(job, cs, es, k);
      }
    }
  }

  /** The LDAP server: who has which entry and is in which groups.  Any query may fail. */
  class Directory {
    var entries: map<string, string>
    var memberships: map<string, seq<string>>
    ghost var faults: nat

    method GetUser(username: string) returns (dn: Option<string>)
      modifies this`faults
      ensures dn.Some? <==> faults == old(faults) && username in entries
      ensures dn.Some? ==> dn.value == entries[username]
      ensures faults >= old(faults)
    {
      var fails: bool := *;
      dn := if fails || username !in entries then None else Some(entries[username]);
      faults := if fails then faults + 1 else faults;
    }

    function GroupsOf(dn: string): seq<string>
      reads this`memberships
    {
      if dn in memberships then memberships[dn] else []
    }

    method GetUserGroups(dn: string) returns (groups: Option<seq<string>>)
      modifies this`faults
      ensures groups == if faults == old(faults) then Some(GroupsOf(dn)) else None
      ensures faults >= old(faults)
    {
      var fails: bool := *;
      groups := if fails then None else Some(GroupsOf(dn));
      faults := if fails then faults + 1 else faults;
    }
  }

  lemma UpsertedLast(log0: seq<AccountExchange>, log1: seq<AccountExchange>, name: string, r: Result<string, Code>)
    requires Upserted(log0, log1, name, r)
    ensures log1 != [] && !log1[|log1| - 1].call.AskToken?
  {
  }

  datatype HttpError = Unauthorized(message: string) | InternalServerError(message: string)

  datatype Credentials = Credentials(kind: string, apiVersion: string, tokenOf: string)

  /** How far a request got. */
  datatype Stage = NoAccount | NotOnLdap | NotReconciled | NoToken | Granted

  function Answer(stage: Stage): Option<HttpError> {
    match stage
    case NoAccount => Some(InternalServerError("Failed to upsert service account"))
    case NotOnLdap => Some(Unauthorized("failed to authenticate user on LDAP"))
    case NotReconciled => Some(InternalServerError("Failed to reconcile cluster role bindings"))
    case NoToken => Some(InternalServerError("Failed to issue token"))
    case Granted => None
  }

  function ToSet(xs: seq<string>): set<string> {
    set x | x in xs
  }

  class AuthService {
    const serviceAccounts: ServiceAccountsService
    const groupBindings: LdapGroupBindingService
    const directory: Directory
    const ldapEnabled: bool

    ghost var trace: seq<Config>
    ghost var events: seq<Event>
    ghost var origin: Store
    ghost var logBefore: seq<Event>

    constructor (serviceAccounts: ServiceAccountsService, groupBindings: LdapGroupBindingService,
                 directory: Directory, ldapEnabled: bool)
      ensures this.serviceAccounts == serviceAccounts && this.groupBindings == groupBindings
      ensures this.directory == directory && this.ldapEnabled == ldapEnabled
    {
      this.serviceAccounts := serviceAccounts;
      this.groupBindings := groupBindings;
      this.directory := directory;
      this.ldapEnabled := ldapEnabled;
    }

    function Server(): ApiServer {
      serviceAccounts.api
    }

    function JobFor(saName: string, bs: seq<LdapGroupBinding>): Job {
      Job(saName, serviceAccounts.namespace, WantsOf(bs))
    }

    /** The methods have so far followed the protocol, and are now where process `p` is. */
    ghost predicate At(job: Job, p: Proc)
      reads this, Server()`bindings, Server()`log
    {
      && IsRun(job, trace, events)
      && trace[0].store == origin
      && trace[|events|] == Config(Server().bindings, p)
      && Server().log == logBefore + CallsOf(events)
    }

    /** `At` before the server was last called. */
    ghost predicate Was(job: Job, p: Proc, s: Store, log: seq<Event>)
      reads this
    {
      && IsRun(job, trace, events)
      && trace[0].store == origin
      && trace[|events|] == Config(s, p)
      && log == logBefore + CallsOf(events)
    }

    ghost method Note(job: Job, p: Proc, s: Store, log: seq<Event>, e: Event, p': Proc, s': Store, log': seq<Event>)
      requires Was(job, p, s, log)
      requires Step(job, Config(s, p), e, Config(s', p'))
      requires log' == if e.Called? then log + [e] else log
      modifies this`trace, this`events
      ensures Was(job, p', s', log')
    {
      hide Step, IsRun;
      Extend(job, trace, events, e, Config(s', p'));
      CallsOneMore(events, e);
      trace := trace + [Config(s', p')];
      events := events + [e];
    }

    /** A call was made and recorded. */
    ghost method NoteCall(job: Job, p: Proc, s: Store, log: seq<Event>, call: Call, reply: Reply)
      requires Was(job, p, s, log) && Issues(job, p, call)
      requires Recorded(log, s, call, reply, Server().log, Server().bindings)
      modifies this`trace, this`events
      ensures At(job, Resume(job, p, call, reply))
    {
      var e := Server().log[|log|];
      assert Server().log == log + [e];
      Note(job, p, s, log, e, Resume(job, p, call, reply), Server().bindings, Server().log);
    }

    ghost method NoteLocal(job: Job, p: Proc, p': Proc)
      requires At(job, p) && Moves(job, p, p')
      modifies this`trace, this`events
      ensures At(job, p')
    {
      Note(job, p, Server().bindings, Server().log, Local, p', Server().bindings, Server().log);
    }

    /** The bindings by name; of two with the same name the later one is kept. */
    method IndexByName(ghost scope: Scope, bindings: seq<Listed>) returns (result: BindingIndex)
      requires forall x | x in bindings :: ScopeOf(x.key) == scope
      ensures fresh(result) && WellKeyed(scope, result.entries)
      ensures Slots(scope, result.entries) == Indexed(bindings)
    {
      result := new BindingIndex();
      for i := 0 to |bindings|
        invariant result.entries == ByName(bindings[..i])
        modifies result
      {
        assert bindings[..i + 1][..i] == bindings[..i];
        result.entries := result.entries[bindings[i].key.name := bindings[i]];
      }
      assert bindings[..|bindings|] == bindings;
      ByNameIsIndexed(scope, bindings);
    }

    lemma ListedInScope(job: Job, s: Store, scope: Scope, items: seq<Listed>)
      requires IsListing(s, scope, items)
      ensures forall x | x in Mine(job.Me(), items) :: ScopeOf(x.key) == scope
    {
      MineMeaning(job, items);
    }

    method GetExistingClusterRoleBindings(ghost job: Job, saName: string) returns (r: Result<BindingIndex, string>)
      requires job.user == saName && job.home == serviceAccounts.namespace
      requires At(job, ListCluster)
      modifies Server()`log, this`trace, this`events
      ensures if r.Success?
              then fresh(r.value) && WellKeyed(ClusterWide, r.value.entries)
                && At(job, ListNamespaced(Slots(ClusterWide, r.value.entries)))
              else At(job, Finished(InternalError(r.error)))
    {
      var listed: Result<seq<Listed>, Code>;
      ghost var reply: Reply;
      listed, reply := serviceAccounts.GetClusterRoleBindings(saName);
      NoteCall(job, ListCluster, Server().bindings, old(Server().log), List(ClusterWide), reply);
      if listed.Failure? {
        return Failure("failed to get cluster role bindings");
      }
      ListedInScope(job, Server().bindings, ClusterWide, reply.items);
      var result := IndexByName(ClusterWide, listed.value);
      r := Success(result);
    }

    method GetExistingRoleBindings(ghost job: Job, saName: string, ghost cluster: map<string, Listed>)
      returns (r: Result<BindingIndex, string>)
      requires job.user == saName && job.home == serviceAccounts.namespace
      requires At(job, ListNamespaced(Slots(ClusterWide, cluster)))
      modifies Server()`log, this`trace, this`events
      ensures if r.Success?
              then fresh(r.value) && WellKeyed(AllNamespaces, r.value.entries)
                && At(job, Ensure(Both(cluster, r.value.entries), 0))
              else At(job, Finished(InternalError(r.error)))
    {
      var listed: Result<seq<Listed>, Code>;
      ghost var reply: Reply;
      listed, reply := serviceAccounts.GetRoleBindings(saName);
      NoteCall(job, ListNamespaced(Slots(ClusterWide, cluster)), Server().bindings, old(Server().log),
        List(AllNamespaces), reply);
      if listed.Failure? {
        return Failure("failed to get role bindings");
      }
      ListedInScope(job, Server().bindings, AllNamespaces, reply.items);
      var result := IndexByName(AllNamespaces, listed.value);
      r := Success(result);
    }

    /** A get, then perhaps an update, were made and recorded. */
    ghost method NoteUpdate(job: Job, index: Index, d: nat, patch: Binding -> Binding,
                            s: Store, log: seq<Event>, put: Result<string, Code>)
      requires d < |job.wants| && job.wants[d].Supported() && job.SlotFor(job.wants[d]) in index
      requires !job.Matches(job.wants[d], index[job.SlotFor(job.wants[d])].obj)
      requires Was(job, Ensure(index, d), s, log)
      requires forall b :: patch(b) == job.Patch(job.wants[d], b)
      requires GotAndUpdated(log, s, job.KeyFor(job.wants[d]), patch, Server().log, Server().bindings, put)
      modifies this`trace, this`events
      ensures if put.Success? then At(job, Ensure(index - {job.SlotFor(job.wants[d])}, d + 1))
              else At(job, Finished(InternalError(FailureText(Get(job.KeyFor(job.wants[d]))))))
    {
      hide Served, IsRun;
      var p := Ensure(index, d);
      var k := job.KeyFor(job.wants[d]);
      var get := Server().log[|log|];
      var p1 := Resume(job, p, Get(k), get.reply);
      Note(job, p, s, log, get, p1, s, log + [get]);
      if get.reply.Failed? {
        assert Server().log == log + [get];
      } else {
        var upd := Server().log[|log| + 1];
        assert Server().log == log + [get] + [upd];
        Note(job, p1, s, log + [get], upd, Resume(job, p1, upd.call, upd.reply), Server().bindings, Server().log);
      }
    }

    method EnsureClusterRoleBinding(ghost job: Job, ghost d: nat, ghost roles: map<string, Listed>,
                                    saName: string, group: string, binding: Item, bindingName: string,
                                    existingMap: BindingIndex)
      returns (err: Outcome)
      requires job.user == saName && job.home == serviceAccounts.namespace
      requires d < |job.wants| && job.wants[d] == Want(group, binding) && binding.kind == CLUSTER_ROLE
      requires bindingName == GenBindingName(saName, binding.name, group)
      requires At(job, Ensure(Both(existingMap.entries, roles), d))
      modifies existingMap, Server()`bindings, Server()`log, this`trace, this`events
      ensures if err == Succeeded
              then existingMap.entries == old(existingMap.entries) - {bindingName}
                && At(job, Ensure(Both(existingMap.entries, roles), d + 1))
              else At(job, Finished(err))
    {
      hide Both, IsRun, Recorded, Served, GotAndUpdated, Step;
      ghost var index := Both(existingMap.entries, roles);
      BothWithoutCluster(existingMap.entries, roles, bindingName);
      if bindingName !in existingMap.entries {
        var made: Result<string, Code>;
        ghost var reply: Reply;
        made, reply := serviceAccounts.CreateClusterRoleBinding(saName, binding.name, group);
        NoteCall(job, Ensure(index, d), old(Server().bindings), old(Server().log),
          Create(job.KeyFor(job.wants[d]), job.Ideal(job.wants[d])), reply);
        if made.Failure? {
          return InternalError("failed to create cluster role binding");
        }
      } else {
        var existing := existingMap.entries[bindingName];
        if existing.obj.roleRef.name != binding.name {
          var put := serviceAccounts.UpdateClusterRoleBinding(saName, binding.name, group);
          NoteUpdate(job, index, d, RoleRenamed(binding.name),
            old(Server().bindings), old(Server().log), put);
          if put.Failure? {
            return InternalError("failed to update cluster role binding");
          }
        } else {
          NoteLocal(job, Ensure(index, d), Ensure(index - {Slot(ClusterWide, bindingName)}, d + 1));
        }
      }
      existingMap.entries := existingMap.entries - {bindingName};
      err := Succeeded;
    }

    /** Anything but the account as the one subject counts as different. */
    method SubjectDiffers(subjects: seq<Subject>, saName: string, saNamespace: string) returns (differ: bool)
      ensures differ <==> subjects != [Subject(SERVICE_ACCOUNT, saName, saNamespace)]
    {
      differ := false;
      if |subjects| != 1 {
        differ := true;
      } else {
        var subject := subjects[0];
        if subject.kind != SERVICE_ACCOUNT || subject.name != saName || subject.ns != saNamespace {
          differ := true;
        }
      }
    }

    method EnsureRoleBinding(ghost job: Job, ghost d: nat, ghost cluster: map<string, Listed>,
                             saName: string, group: string, binding: Item, bindingName: string,
                             existingMap: BindingIndex)
      returns (err: Outcome)
      requires job.user == saName && job.home == serviceAccounts.namespace
      requires d < |job.wants| && job.wants[d] == Want(group, binding) && binding.kind == ROLE
      requires bindingName == GenBindingName(saName, binding.name, group)
      requires At(job, Ensure(Both(cluster, existingMap.entries), d))
      modifies existingMap, Server()`bindings, Server()`log, this`trace, this`events
      ensures if err == Succeeded
              then existingMap.entries ==
                  (if binding.ns == "" then old(existingMap.entries) else old(existingMap.entries) - {bindingName})
                && At(job, Ensure(Both(cluster, existingMap.entries), d + 1))
              else At(job, Finished(err))
    {
      hide Both, IsRun, Recorded, Served, GotAndUpdated, Step;
      ghost var index := Both(cluster, existingMap.entries);
      if binding.ns == "" {
        NoteLocal(job, Ensure(index, d), Ensure(index, d + 1));
        return Succeeded;
      }
      BothWithoutRole(cluster, existingMap.entries, bindingName);
      var roleRef := RoleRef(binding.apiGroup, binding.kind, binding.name);
      var saNamespace := serviceAccounts.namespace;
      if bindingName !in existingMap.entries {
        var made: Result<string, Code>;
        ghost var reply: Reply;
        made, reply := serviceAccounts.CreateRoleBinding(saName, binding.ns, group, roleRef);
        NoteCall(job, Ensure(index, d), old(Server().bindings), old(Server().log),
          Create(job.KeyFor(job.wants[d]), job.Ideal(job.wants[d])), reply);
        if made.Failure? {
          return InternalError("failed to create role binding");
        }
      } else {
        var existing := existingMap.entries[bindingName].obj;
        var subjectDiffer := SubjectDiffers(existing.subjects, saName, saNamespace);
        if subjectDiffer || existing.roleRef.name != binding.name || existing.roleRef.kind != binding.kind
          || existing.roleRef.apiGroup != binding.apiGroup
        {
          var put := serviceAccounts.UpdateRoleBinding(saName, binding.ns, roleRef, group);
          NoteUpdate(job, index, d, Rebound(roleRef, serviceAccounts.Account(saName)),
            old(Server().bindings), old(Server().log), put);
          if put.Failure? {
            return InternalError("failed to update role binding");
          }
        } else {
          NoteLocal(job, Ensure(index, d), Ensure(index - {Slot(AllNamespaces, bindingName)}, d + 1));
        }
      }
      existingMap.entries := existingMap.entries - {bindingName};
      err := Succeeded;
    }

    lemma NoClusterLeft(roles: map<string, Listed>)
      ensures Both(map[], roles) == Slots(AllNamespaces, roles)
    {
    }

    method RemoveUnusedClusterRoleBindings(ghost job: Job, ghost roles: map<string, Listed>, bindings: BindingIndex)
      returns (err: Outcome)
      requires WellKeyed(ClusterWide, bindings.entries)
      requires At(job, Prune(Both(bindings.entries, roles)))
      modifies Server()`bindings, Server()`log, this`trace, this`events
      ensures if err == Succeeded then At(job, Prune(Slots(AllNamespaces, roles))) else At(job, Finished(err))
    {
      hide Both, IsRun, Recorded, Served, Step;
      var rest := bindings.entries;
      while rest != map[]
        invariant forall n | n in rest :: n in bindings.entries && rest[n] == bindings.entries[n]
        invariant At(job, Prune(Both(rest, roles)))
        decreases |rest|
      {
        var name :| name in rest;
        BothWithoutCluster(rest, roles, name);
        ghost var s, log := Server().bindings, Server().log;
        var gone: Result<string, Code>;
        ghost var reply: Reply;
        gone, reply := serviceAccounts.DeleteClusterRoleBinding(name);
        NoteCall(job, Prune(Both(rest, roles)), s, log, Delete(Key.Cluster(name)), reply);
        if gone.Failure? {
          return InternalError("failed to delete cluster role binding");
        }
        rest := rest - {name};
      }
      NoClusterLeft(roles);
      err := Succeeded;
    }

    lemma NothingLeft()
      ensures Slots(AllNamespaces, map[]) == map[]
    {
    }

    method RemoveUnusedRoleBindings(ghost job: Job, bindings: BindingIndex) returns (err: Outcome)
      requires WellKeyed(AllNamespaces, bindings.entries)
      requires At(job, Prune(Slots(AllNamespaces, bindings.entries)))
      modifies Server()`bindings, Server()`log, this`trace, this`events
      ensures At(job, Finished(err))
    {
      hide Slots, IsRun, Recorded, Served, Step;
      var rest := bindings.entries;
      while rest != map[]
        invariant forall n | n in rest :: n in bindings.entries && rest[n] == bindings.entries[n]
        invariant At(job, Prune(Slots(AllNamespaces, rest)))
        decreases |rest|
      {
        var name :| name in rest;
        SlotsMeaning(AllNamespaces, rest, name);
        ghost var s, log := Server().bindings, Server().log;
        var gone: Result<string, Code>;
        ghost var reply: Reply;
        var binding := rest[name];
        gone, reply := serviceAccounts.DeleteRoleBinding(binding.key.ns, name);
        NoteCall(job, Prune(Slots(AllNamespaces, rest)), s, log, Delete(Namespaced(binding.key.ns, name)), reply);
        if gone.Failure? {
          return InternalError("failed to delete role binding");
        }
        rest := rest - {name};
      }
      NothingLeft();
      NoteLocal(job, Prune(Slots(AllNamespaces, rest)), Finished(Succeeded));
      err := Succeeded;
    }

    /** The body of the nested loops. */
    method EnsureItem(ghost job: Job, ghost d: nat, saName: string, group: string, binding: Item,
                      clusterMap: BindingIndex, roleMap: BindingIndex)
      returns (err: Outcome)
      requires job.user == saName && job.home == serviceAccounts.namespace && clusterMap != roleMap
      requires d < |job.wants| && job.wants[d] == Want(group, binding)
      requires WellKeyed(ClusterWide, clusterMap.entries) && WellKeyed(AllNamespaces, roleMap.entries)
      requires At(job, Ensure(Both(clusterMap.entries, roleMap.entries), d))
      modifies clusterMap, roleMap, Server()`bindings, Server()`log, this`trace, this`events
      ensures err == Succeeded ==>
                WellKeyed(ClusterWide, clusterMap.entries) && WellKeyed(AllNamespaces, roleMap.entries)
      ensures if err == Succeeded
              then At(job, Ensure(Both(clusterMap.entries, roleMap.entries), d + 1))
              else At(job, Finished(err))
    {
      hide Both, IsRun;
      err := Succeeded;
      var bindingName := GenBindingName(saName, binding.name, group);
      if binding.kind == CLUSTER_ROLE {
        err := EnsureClusterRoleBinding(job, d, roleMap.entries, saName, group, binding, bindingName, clusterMap);
      } else if binding.kind == ROLE {
        err := EnsureRoleBinding(job, d, clusterMap.entries, saName, group, binding, bindingName, roleMap);
      } else {
        NoteLocal(job, Ensure(Both(clusterMap.entries, roleMap.entries), d),
          Ensure(Both(clusterMap.entries, roleMap.entries), d + 1));
      }
    }

    method EnsureAll(ghost job: Job, saName: string, ldapGroupBindings: seq<LdapGroupBinding>,
                     clusterMap: BindingIndex, roleMap: BindingIndex)
      returns (err: Outcome)
      requires job == JobFor(saName, ldapGroupBindings) && clusterMap != roleMap
      requires WellKeyed(ClusterWide, clusterMap.entries) && WellKeyed(AllNamespaces, roleMap.entries)
      requires At(job, Ensure(Both(clusterMap.entries, roleMap.entries), 0))
      modifies clusterMap, roleMap, Server()`bindings, Server()`log, this`trace, this`events
      ensures err == Succeeded ==>
                WellKeyed(ClusterWide, clusterMap.entries) && WellKeyed(AllNamespaces, roleMap.entries)
      ensures if err == Succeeded
              then At(job, Ensure(Both(clusterMap.entries, roleMap.entries), |job.wants|))
              else At(job, Finished(err))
    {
      hide Both, IsRun;
      var n := |ldapGroupBindings|;
      for i := 0 to n
        invariant WellKeyed(ClusterWide, clusterMap.entries) && WellKeyed(AllNamespaces, roleMap.entries)
        invariant At(job, Ensure(Both(clusterMap.entries, roleMap.entries), |WantsOf(ldapGroupBindings[..i])|))
      {
        var b := ldapGroupBindings[i];
        ghost var done := |WantsOf(ldapGroupBindings[..i])|;
        for k := 0 to |b.items|
          invariant WellKeyed(ClusterWide, clusterMap.entries) && WellKeyed(AllNamespaces, roleMap.entries)
          invariant At(job, Ensure(Both(clusterMap.entries, roleMap.entries), done + k))
        {
          WantsIndex(ldapGroupBindings, i, k);
          err := EnsureItem(job, done + k, saName, b.name, b.items[k], clusterMap, roleMap);
          if err != Succeeded {
            return;
          }
        }
        WantsNext(ldapGroupBindings, i);
      }
      assert ldapGroupBindings[..n] == ldapGroupBindings;
      err := Succeeded;
    }

    /** The three phases, as a run of the protocol. */
    method Reconcile(saName: string, ldapGroupBindings: seq<LdapGroupBinding>) returns (err: Outcome)
      modifies Server()`bindings, Server()`log, this`trace, this`events, this`origin, this`logBefore
      ensures origin == old(Server().bindings) && logBefore == old(Server().log)
      ensures At(JobFor(saName, ldapGroupBindings), Finished(err))
    {
      ghost var job := JobFor(saName, ldapGroupBindings);
      origin, logBefore := Server().bindings, Server().log;
      trace, events := [Config(Server().bindings, ListCluster)], [];

      // 1. Retrieve the current state.
      var clusterResult := GetExistingClusterRoleBindings(job, saName);
      if clusterResult.Failure? {
        return InternalError(clusterResult.error);
      }
      var clusterMap := clusterResult.value;
      var roleResult := GetExistingRoleBindings(job, saName, clusterMap.entries);
      if roleResult.Failure? {
        return InternalError(roleResult.error);
      }
      var roleMap := roleResult.value;

      // 2. Ensure the desired bindings exist.
      err := EnsureAll(job, saName, ldapGroupBindings, clusterMap, roleMap);
      if err != Succeeded {
        return;
      }
      NoteLocal(job, Ensure(Both(clusterMap.entries, roleMap.entries), |job.wants|),
        Prune(Both(clusterMap.entries, roleMap.entries)));

      // 3. Remove the bindings no longer needed.
      err := RemoveUnusedClusterRoleBindings(job, roleMap.entries, clusterMap);
      if err != Succeeded {
        return;
      }
      err := RemoveUnusedRoleBindings(job, roleMap);
    }

    /** Brings the account's bindings in line with the LdapGroupBindings, one call at a time. */
    method ReconcileClusterAndRoleBindings(saName: string, ldapGroupBindings: seq<LdapGroupBinding>)
      returns (err: Outcome)
      modifies Server()`bindings, Server()`log, this`trace, this`events, this`origin, this`logBefore
      ensures origin == old(Server().bindings) && logBefore == old(Server().log)
      ensures At(JobFor(saName, ldapGroupBindings), Finished(err))
      ensures Lawful(JobFor(saName, ldapGroupBindings), old(Server().bindings), Server().bindings,
                CleanSince(old(Server().log), Server().log), err == Succeeded)
    {
      hide Lawful;
      err := Reconcile(saName, ldapGroupBindings);
      assert Server().log[|old(Server().log)|..] == CallsOf(events);
      if AllClean(CallsOf(events)) {
        CleanCalls(events);
      }
      RunIsLawful(JobFor(saName, ldapGroupBindings), trace, events, CleanSince(old(Server().log), Server().log));
    }

    /** The job of a request: the account and the bindings for its user's groups. */
    ghost function RequestJob(username: string, dn: string): Job
      requires groupBindings.cache.Fits()
      reads groupBindings, groupBindings.cache.backing, directory`memberships
    {
      JobFor(username, UserBindings(groupBindings.Contents(), ToSet(directory.GroupsOf(dn))))
    }

    method FilterByGroups(ldapBindings: Slice, groups: seq<string>) returns (userBindings: seq<LdapGroupBinding>)
      requires ldapBindings.Fits()
      ensures userBindings == UserBindings(ldapBindings.Contents(), ToSet(groups))
    {
      var groupsMap := {};
      for i := 0 to |groups|
        invariant groupsMap == ToSet(groups[..i])
      {
        groupsMap := groupsMap + {groups[i]};
        assert groups[..i + 1] == groups[..i] + [groups[i]];
      }
      assert groups[..|groups|] == groups;
      userBindings := [];
      for i := 0 to ldapBindings.len
        invariant userBindings == UserBindings(ldapBindings.backing[..i], groupsMap)
      {
        assert ldapBindings.backing[..i + 1][..i] == ldapBindings.backing[..i];
        var binding := ldapBindings.backing[i];
        if binding.groupDN in groupsMap {
          userBindings := userBindings + [binding];
        }
      }
    }

    /** The reconciliation on record started from these and ended with this outcome. */
    ghost predicate Reconciled(job: Job, before: Store, log0: seq<Event>, outcome: Outcome)
      reads this, Server()`bindings, Server()`log
    {
      && origin == before && logBefore == log0 && At(job, Finished(outcome))
      && Lawful(job, before, Server().bindings, CleanSince(log0, Server().log), outcome == Succeeded)
    }

    /** A reconciliation is on record that started from these; `ok` says whether it succeeded. */
    ghost predicate Went(job: Job, before: Store, log0: seq<Event>, ok: bool)
      reads this, Server()`bindings, Server()`log
    {
      exists outcome :: Reconciled(job, before, log0, outcome) && (ok <==> outcome == Succeeded)
    }

    /** Finds the user's groups, picks the bindings for them, and reconciles. */
    method LdapReconcilate(username: string, saName: string) returns (err: Option<HttpError>)
      requires groupBindings.Valid()
      modifies groupBindings`handedOut, Server()`bindings, Server()`log, directory`faults
      modifies this`trace, this`events, this`origin, this`logBefore
      ensures groupBindings.Valid() && groupBindings.Contents() == old(groupBindings.Contents())
      ensures directory.faults >= old(directory.faults)
      ensures if username in directory.entries && directory.faults == old(directory.faults)
              then
                && Went(RequestJob(saName, directory.entries[username]),
                     old(Server().bindings), old(Server().log), err.None?)
                && (err.Some? ==> err == Some(InternalServerError("Failed to reconcile cluster role bindings")))
              else
                && err == Some(Unauthorized("failed to authenticate user on LDAP"))
                && Server().bindings == old(Server().bindings) && Server().log == old(Server().log)
                && groupBindings.handedOut == old(groupBindings.handedOut)
    {
      hide Lawful, UserBindings, WantsOf, At;
      var user := directory.GetUser(username);
      if user.None? {
        return Some(Unauthorized("failed to authenticate user on LDAP"));
      }
      var groups := directory.GetUserGroups(user.value);
      if groups.None? {
        return Some(Unauthorized("failed to authenticate user on LDAP"));
      }
      var ldapBindings := groupBindings.GetBindings();
      var userBindings := FilterByGroups(ldapBindings, groups.value);
      ghost var job := RequestJob(saName, user.value);
      assert JobFor(saName, userBindings) == job;
      var outcome := ReconcileClusterAndRoleBindings(saName, userBindings);
      assert Reconciled(RequestJob(saName, user.value), old(Server().bindings), old(Server().log), outcome);
      err := if outcome == Succeeded then None
             else Some(InternalServerError("Failed to reconcile cluster role bindings"));
    }

    /** What the account then holds, spelled out: for ClusterRoleBindings one per ClusterRole item of
        the LdapGroupBindings for the user's groups; for RoleBindings one per Role item with a
        namespace, if and only if no name was spread over namespaces before. */
    ghost predicate LdapDone(username: string, before: Store)
      requires groupBindings.cache.Fits()
      reads Server()`bindings, groupBindings, groupBindings.cache.backing, directory`entries, directory`memberships
    {
      && username in directory.entries
      && var groups := ToSet(directory.GroupsOf(directory.entries[username]));
      && var job := RequestJob(username, directory.entries[username]);
      && (forall k: Key | k.Cluster? ::
            k in Held(job, Server().bindings) <==> GrantedBy(username, groupBindings.Contents(), groups, k))
      && ClusterExact(job, Server().bindings)
      && (OneNamespacePerName(job, before) ==>
            forall k: Key | k.Namespaced? ::
              k in Held(job, Server().bindings) <==> GrantedIn(username, groupBindings.Contents(), groups, k))
      && (RoleExact(job, Server().bindings) <==> OneNamespacePerName(job, before))
    }

    lemma GrantsExplained(username: string, dn: string)
      requires groupBindings.cache.Fits()
      requires ClusterExact(RequestJob(username, dn), Server().bindings)
      ensures forall k: Key | k.Cluster? ::
                k in Held(RequestJob(username, dn), Server().bindings)
                <==> GrantedBy(username, groupBindings.Contents(), ToSet(directory.GroupsOf(dn)), k)
      ensures RoleExact(RequestJob(username, dn), Server().bindings) ==>
                forall k: Key | k.Namespaced? ::
                  k in Held(RequestJob(username, dn), Server().bindings)
                  <==> GrantedIn(username, groupBindings.Contents(), ToSet(directory.GroupsOf(dn)), k)
    {
      var job := RequestJob(username, dn);
      var groups := ToSet(directory.GroupsOf(dn));
      forall k: Key
        ensures k in Targets(job)
          <==> if k.Cluster? then GrantedBy(username, groupBindings.Contents(), groups, k)
               else GrantedIn(username, groupBindings.Contents(), groups, k)
      {
        TargetsAreGranted(username, serviceAccounts.namespace, groupBindings.Contents(), groups, k);
      }
      forall k | k in Targets(job)
        ensures k.Cluster? || RoleExact(job, Server().bindings) ==> k in Held(job, Server().bindings)
      {
        var w :| w in job.wants && w.Supported() && job.KeyFor(w) == k;
        PatchMeaning(job, w, job.Ideal(w));
      }
    }

    lemma SuccessIsDone(username: string, before: Store, log0: seq<Event>)
      requires groupBindings.cache.Fits() && username in directory.entries
      requires Went(RequestJob(username, directory.entries[username]), before, log0, true)
      ensures LdapDone(username, before)
    {
      hide ClusterExact, RoleExact, OneNamespacePerName, UserBindings, WantsOf, Held, Targets, At;
      GrantsExplained(username, directory.entries[username]);
    }

    /** The last call about accounts was for a token. */
    ghost predicate TokenAsked()
      reads Server()`accountLog
    {
      Server().accountLog != [] && Server().accountLog[|Server().accountLog| - 1].call.AskToken?
    }

    /** The calls about accounts, apart from that for a token. */
    ghost function AccountCalls(): seq<AccountExchange>
      reads Server()`accountLog
    {
      var log := Server().accountLog;
      if TokenAsked() then log[..|log| - 1] else log
    }

    /** The request up to the token: the account, LDAP, the reconciliation. */
    method Prepare(username: string)
      returns (err: Option<HttpError>, ghost stage: Stage, ghost made: Result<string, Code>)
      requires groupBindings.Valid()
      modifies groupBindings`handedOut, directory`faults
      modifies Server()`accounts, Server()`bindings, Server()`log, Server()`accountFaults, Server()`accountLog
      modifies this`trace, this`events, this`origin, this`logBefore
      ensures groupBindings.Valid() && groupBindings.Contents() == old(groupBindings.Contents())
      ensures Server().accounts == old(Server().accounts) || Server().accounts == old(Server().accounts) + {username}
      ensures Upserted(old(Server().accountLog), Server().accountLog, username, made)
      ensures made.Failure? <==> stage == NoAccount
      ensures made.Success? ==> username in Server().accounts
      ensures Server().accountFaults != old(Server().accountFaults) <==> stage == NoAccount
      ensures Server().accountFaults >= old(Server().accountFaults)
      ensures stage != NoToken && err == Answer(stage)
      ensures stage == NotOnLdap || stage == NotReconciled ==> ldapEnabled
      ensures ldapEnabled && stage != NoAccount ==>
                (stage != NotOnLdap <==> username in directory.entries && directory.faults == old(directory.faults))
      ensures ldapEnabled && stage != NoAccount && stage != NotOnLdap ==>
                Went(RequestJob(username, directory.entries[username]),
                  old(Server().bindings), old(Server().log), stage != NotReconciled)
      ensures ldapEnabled && stage == Granted ==> LdapDone(username, old(Server().bindings))
      ensures stage == NoAccount || stage == NotOnLdap || !ldapEnabled ==>
                Server().bindings == old(Server().bindings) && Server().log == old(Server().log)
    {
      hide LdapDone, Went, Upserted, RequestJob;
      ghost var before, calls := Server().bindings, Server().log;
      var sa := serviceAccounts.UpsertServiceAccount(username);
      made := sa;
      if sa.Failure? {
        return Some(InternalServerError("Failed to upsert service account")), NoAccount, made;
      }
      if ldapEnabled {
        var failed := LdapReconcilate(username, sa.value);
        if failed.Some? {
          return failed, if failed.value.Unauthorized? then NotOnLdap else NotReconciled, made;
        }
        SuccessIsDone(username, before, calls);
      }
      err := None;
      stage := Granted;
    }

    /** The request, with how far it got. */
    method Serve(username: string)
      returns (creds: Option<Credentials>, err: Option<HttpError>, ghost stage: Stage, ghost made: Result<string, Code>)
      requires groupBindings.Valid()
      modifies groupBindings`handedOut, directory`faults
      modifies Server()`accounts, Server()`bindings, Server()`log
      modifies Server()`issued, Server()`accountFaults, Server()`accountLog
      modifies this`trace, this`events, this`origin, this`logBefore
      ensures groupBindings.Valid() && groupBindings.Contents() == old(groupBindings.Contents())
      ensures Server().accounts == old(Server().accounts) || Server().accounts == old(Server().accounts) + {username}
      ensures Upserted(old(Server().accountLog), AccountCalls(), username, made)
      ensures made.Failure? <==> stage == NoAccount
      ensures TokenAsked() <==> stage == NoToken || stage == Granted
      ensures Server().accountFaults != old(Server().accountFaults) <==> stage == NoAccount || stage == NoToken
      ensures stage == NotOnLdap || stage == NotReconciled ==> ldapEnabled
      ensures ldapEnabled && stage != NoAccount ==>
                (stage != NotOnLdap <==> username in directory.entries && directory.faults == old(directory.faults))
      ensures ldapEnabled && stage != NoAccount && stage != NotOnLdap ==>
                Went(RequestJob(username, directory.entries[username]),
                  old(Server().bindings), old(Server().log), stage != NotReconciled)
      ensures stage == NoAccount || stage == NotOnLdap || !ldapEnabled ==>
                Server().bindings == old(Server().bindings) && Server().log == old(Server().log)
      ensures err == Answer(stage)
      ensures creds == if stage == Granted
                       then Some(Credentials("ExecCredential", "client.authentication.k8s.io/v1beta1", username))
                       else None
      ensures stage == Granted ==> Server().issued != old(Server().issued)
      ensures Server().issued == old(Server().issued)
        || (&& (stage == NoToken || stage == Granted) && username in Server().accounts
            && Server().issued == old(Server().issued) + [Issue(username, Server().bindings, Server().accounts)]
            && (ldapEnabled ==> LdapDone(username, old(Server().bindings))))
    {
      hide LdapDone, Went, Upserted, RequestJob;
      err, stage, made := Prepare(username);
      ghost var upserted := Server().accountLog;
      UpsertedLast(old(Server().accountLog), upserted, username, made);
      assert AccountCalls() == upserted && !TokenAsked();
      if err.Some? {
        return None, err, stage, made;
      }
      var token := serviceAccounts.IssueToken(username);
      assert AccountCalls() == upserted && TokenAsked();
      if token.Failure? {
        return None, Some(InternalServerError("Failed to issue token")), NoToken, made;
      }
      creds := Some(Credentials("ExecCredential", "client.authentication.k8s.io/v1beta1", token.value));
    }

    /** One request: a token is issued only for an account that exists and, with LDAP, only once its
        ClusterRoleBindings are exactly those its user's groups call for.

        The contract follows the request: the account, LDAP, the reconciliation, the token, with the
        answer for a failure of each. */
    method AuthAccount(username: string) returns (creds: Option<Credentials>, err: Option<HttpError>)
      requires groupBindings.Valid()
      modifies groupBindings`handedOut, directory`faults
      modifies Server()`accounts, Server()`bindings, Server()`log
      modifies Server()`issued, Server()`accountFaults, Server()`accountLog
      modifies this`trace, this`events, this`origin, this`logBefore
      ensures groupBindings.Valid() && groupBindings.Contents() == old(groupBindings.Contents())
      ensures Server().accounts == old(Server().accounts) || Server().accounts == old(Server().accounts) + {username}
      ensures exists made ::
                && Upserted(old(Server().accountLog), AccountCalls(), username, made)
                && (made.Success? <==> TokenAsked() || Server().accountFaults == old(Server().accountFaults))
      ensures !ldapEnabled ==>
                && Server().bindings == old(Server().bindings) && Server().log == old(Server().log)
                && (TokenAsked() || Server().accountFaults != old(Server().accountFaults))
      ensures !TokenAsked() && Server().accountFaults != old(Server().accountFaults) ==>
                && err == Some(InternalServerError("Failed to upsert service account"))
                && Server().bindings == old(Server().bindings) && Server().log == old(Server().log)
      ensures err == Some(Unauthorized("failed to authenticate user on LDAP"))
        <==> (&& ldapEnabled && Server().accountFaults == old(Server().accountFaults)
              && (directory.faults != old(directory.faults) || username !in directory.entries))
      ensures err == Some(Unauthorized("failed to authenticate user on LDAP")) ==>
                && !TokenAsked()
                && Server().bindings == old(Server().bindings) && Server().log == old(Server().log)
      ensures ldapEnabled && TokenAsked() ==>
                username in directory.entries && directory.faults == old(directory.faults)
      ensures && ldapEnabled && (TokenAsked() || Server().accountFaults == old(Server().accountFaults))
              && username in directory.entries && directory.faults == old(directory.faults) ==>
                && Went(RequestJob(username, directory.entries[username]),
                     old(Server().bindings), old(Server().log), TokenAsked())
                && (!TokenAsked() ==>
                      err == Some(InternalServerError("Failed to reconcile cluster role bindings")))
      ensures TokenAsked() ==>
                err == if Server().accountFaults == old(Server().accountFaults) then None
                       else Some(InternalServerError("Failed to issue token"))
      ensures err.None? ==> TokenAsked()
      ensures creds == if err.None?
                       then Some(Credentials("ExecCredential", "client.authentication.k8s.io/v1beta1", username))
                       else None
      ensures creds.Some? ==> Server().issued != old(Server().issued)
      ensures Server().issued == old(Server().issued)
        || (&& TokenAsked() && username in Server().accounts
            && Server().issued == old(Server().issued) + [Issue(username, Server().bindings, Server().accounts)]
            && (ldapEnabled ==> LdapDone(username, old(Server().bindings))))
    {
      hide LdapDone, Went, Upserted, RequestJob;
      ghost var stage: Stage;
      ghost var made: Result<string, Code>;
      creds, err, stage, made := Serve(username);
    }
  }
}
