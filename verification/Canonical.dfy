/** Which bindings can come to exist: over all interleavings of all requests with all faults, every
managed binding is one the service itself would create, so a ClusterRoleBinding never needs an
update and a RoleBinding needs one only when its item changed API group. */
module Canonical {
  import opened Names
  import opened Rbac
  import opened Api
  import opened Reconciler
  import opened SoloRun
  import opened Safety
  import opened Writes
  import opened Interleaving

  predicate CanonicalAs(home: string, k: Key, b: Binding, user: string, role: string, group: string) {
    && ColonFree(user) && ColonFree(group)
    && k.name == GenBindingName(user, role, group)
    && b.managed
    && b.subjects == [Subject(SERVICE_ACCOUNT, user, home)]
    && b.roleRef.name == role
    && b.roleRef.kind == (if k.Cluster? then CLUSTER_ROLE else ROLE)
    && (k.Cluster? ==> b.roleRef.apiGroup == RBAC_API_GROUP)
  }

  ghost predicate Canonical(home: string, k: Key, b: Binding) {
    exists user, role, group :: CanonicalAs(home, k, b, user, role, group)
  }

  ghost predicate AllCanonical(home: string, s: Store) {
    forall k | k in s && s[k].managed :: Canonical(home, k, s[k])
  }

  ghost predicate IndexCanonical(job: Job, ix: Index) {
    forall sl | sl in ix :: SlotOf(ix[sl].key) == sl && Canonical(job.home, ix[sl].key, ix[sl].obj)
  }

  ghost predicate ProcCanonical(job: Job, p: Proc) {
    match p
    case ListNamespaced(ix) => IndexCanonical(job, ix)
    case Ensure(ix, _) => IndexCanonical(job, ix)
    case Write(ix, d, fetched) =>
      && IndexCanonical(job, ix)
      && d < |job.wants| && job.wants[d].item.kind == ROLE
      && (fetched.managed ==> Canonical(job.home, job.KeyFor(job.wants[d]), fetched))
    case Prune(ix) => IndexCanonical(job, ix)
    case _ => true
  }

  /** The job is one the service could be asked for: no colon in the names of Kubernetes objects. */
  predicate WellNamed(job: Job, home: string) {
    job.home == home && ColonFree(job.user) && GroupsColonFree(job)
  }

  lemma IdealCanonical(job: Job, w: Want, b: Binding)
    requires ColonFree(job.user) && ColonFree(w.group) && (w.item.kind == CLUSTER_ROLE || w.item.kind == ROLE)
    requires b == job.Ideal(w) || (w.item.kind == ROLE && b.managed && exists a :: b == job.Patch(w, a))
    ensures Canonical(job.home, job.KeyFor(w), b)
  {
    assert CanonicalAs(job.home, job.KeyFor(w), b, job.user, w.item.name, w.group);
  }

  /** An indexed binding that an item names was made for that very item, give or take the API group. */
  lemma IndexedForItem(job: Job, ix: Index, w: Want)
    requires IndexCanonical(job, ix) && w.Supported() && ColonFree(job.user) && ColonFree(w.group)
    requires job.SlotFor(w) in ix
    ensures var x := ix[job.SlotFor(w)];
            && x.obj.managed && x.obj.subjects == [job.Me()]
            && x.obj.roleRef == job.RefFor(w).(apiGroup := x.obj.roleRef.apiGroup)
            && (w.item.kind == CLUSTER_ROLE ==> x.obj == job.Ideal(w) && job.Matches(w, x.obj))
  {
    var x := ix[job.SlotFor(w)];
    assert x.key.name == job.NameFor(w) && ScopeOf(x.key) == ScopeOf(job.KeyFor(w));
    var user, role, group :| CanonicalAs(job.home, x.key, x.obj, user, role, group);
    GenBindingNameInjective(user, role, group, job.user, w.item.name, w.group);
  }

  lemma ListCanonical(job: Job, s: Store, scope: Scope, items: seq<Listed>)
    requires AllCanonical(job.home, s) && IsListing(s, scope, items)
    ensures IndexCanonical(job, Indexed(Mine(job.Me(), items)))
  {
    ListingIndexed(job, s, scope, items);
  }

  lemma StepCanonicalProc(job: Job, c: Config, e: Event, c': Config)
    requires WellNamed(job, job.home) && AllCanonical(job.home, c.store) && ProcCanonical(job, c.proc)
    requires Step(job, c, e, c')
    ensures ProcCanonical(job, c'.proc)
  {
    match c.proc
    case ListCluster =>
      if e.reply.Items? {
        ListCanonical(job, c.store, ClusterWide, e.reply.items);
      }
    case ListNamespaced(_) =>
      if e.reply.Items? {
        ListCanonical(job, c.store, AllNamespaces, e.reply.items);
      }
    case Ensure(ix, d) =>
      if e.Called? && e.call.Get? {
        assert job.wants[d] in job.wants;
        IndexedForItem(job, ix, job.wants[d]);
      }
    case _ =>
  }

  lemma StepCanonicalStore(job: Job, c: Config, e: Event, c': Config)
    requires WellNamed(job, job.home) && AllCanonical(job.home, c.store) && ProcCanonical(job, c.proc)
    requires Step(job, c, e, c')
    ensures AllCanonical(job.home, c'.store)
  {
    if e.Called? && (e.call.Create? || e.call.Update?) {
      var w := job.wants[c.proc.done];
      assert w in job.wants;
      if e.call.obj.managed {
        IdealCanonical(job, w, e.call.obj);
      }
    }
  }

  lemma HomeOf(job: Job, home: string)
    requires WellNamed(job, home)
    ensures WellNamed(job, job.home) && job.home == home
  {
  }

  /** Reachability: every managed binding is canonical, at every point of every history. */
  lemma {:induction false} AlwaysCanonical(jobs: seq<Job>, home: string, hs: seq<Sys>, ms: seq<Move>, t: nat)
    requires IsHistory(jobs, hs, ms) && t < |hs|
    requires forall i | 0 <= i < |jobs| :: WellNamed(jobs[i], home)
    requires AllCanonical(home, hs[0].store)
    ensures |hs[t].procs| == |jobs| && AllCanonical(home, hs[t].store)
    ensures forall i | 0 <= i < |jobs| :: ProcCanonical(jobs[i], hs[t].procs[i])
  {
    if t > 0 {
      hide AllCanonical, ProcCanonical, Step, WellNamed;
      AlwaysCanonical(jobs, home, hs, ms, t - 1);
      var a, m, b := hs[t - 1], ms[t - 1], hs[t];
      assert SysStep(jobs, a, m, hs[t - 1 + 1]);
      var i := m.who;
      HomeOf(jobs[i], home);
      StepCanonicalProc(jobs[i], Config(a.store, a.procs[i]), m.event, Config(b.store, b.procs[i]));
      StepCanonicalStore(jobs[i], Config(a.store, a.procs[i]), m.event, Config(b.store, b.procs[i]));
    } else {
      forall i | 0 <= i < |jobs| ensures ProcCanonical(jobs[i], hs[0].procs[i]) {
        assert hs[0].procs[i] == ListCluster;
      }
    }
  }

  /** Starting from a canonical store, for instance from no managed bindings at all: the
      ClusterRoleBinding update is never reached, and a RoleBinding update only on account of a
      changed API group. */
  lemma UpdatesOnlyApiGroup(jobs: seq<Job>, home: string, hs: seq<Sys>, ms: seq<Move>, t: nat, i: nat, call: Call)
    requires IsHistory(jobs, hs, ms) && t < |hs| && i < |jobs|
    requires forall j | 0 <= j < |jobs| :: WellNamed(jobs[j], home)
    requires AllCanonical(home, hs[0].store)
    requires i < |hs[t].procs| && Issues(jobs[i], hs[t].procs[i], call)
    ensures call.Get? || call.Update? ==> call.key.Namespaced?
    ensures call.Get? ==>
              var p := hs[t].procs[i];
              var w := jobs[i].wants[p.done];
              && jobs[i].SlotFor(w) in p.index
              && var b := p.index[jobs[i].SlotFor(w)].obj;
              && b == jobs[i].Ideal(w).(roleRef := jobs[i].RefFor(w).(apiGroup := b.roleRef.apiGroup))
              && b.roleRef.apiGroup != w.item.apiGroup
  {
    AlwaysCanonical(jobs, home, hs, ms, t);
    var job, p := jobs[i], hs[t].procs[i];
    assert WellNamed(job, home);
    assert ProcCanonical(job, p);
    if call.Get? {
      var w := job.wants[p.done];
      assert w in job.wants;
      IndexedForItem(job, p.index, w);
    }
  }

  /** Canonical stores are tidy, so requests for distinct accounts serialise over them. */
  lemma CanonicalIsTidy(home: string, s: Store)
    requires AllCanonical(home, s)
    ensures Tidy(s, home)
  {
    forall k, sub | k in s && sub in s[k].subjects && Lists(s[k], sub.name, home) && ColonFree(sub.name)
      ensures Belongs(k.name, sub.name)
    {
      var user, role, group :| CanonicalAs(home, k, s[k], user, role, group);
      GeneratedNameBelongs(user, role, group);
    }
  }

  lemma {:induction false} RunCanonical(job: Job, cs: seq<Config>, es: seq<Event>, i: nat)
    requires IsRun(job, cs, es) && i < |cs|
    requires WellNamed(job, job.home) && AllCanonical(job.home, cs[0].store)
    ensures AllCanonical(job.home, cs[i].store) && ProcCanonical(job, cs[i].proc)
  {
    if i > 0 {
      hide AllCanonical, ProcCanonical, Step, WellNamed;
      RunCanonical(job, cs, es, i - 1);
      assert Step(job, cs[i - 1], es[i - 1], cs[i - 1 + 1]);
      StepCanonicalProc(job, cs[i - 1], es[i - 1], cs[i]);
      StepCanonicalStore(job, cs[i - 1], es[i - 1], cs[i]);
    }
  }

  lemma ClusterCalls(job: Job, p: Proc, call: Call)
    requires WellNamed(job, job.home) && ProcCanonical(job, p) && Issues(job, p, call)
    requires forall w | w in job.wants :: w.item.kind != ROLE
    ensures !call.Get? && !call.Update?
  {
    forall j | 0 <= j < |job.wants| ensures job.wants[j].item.kind != ROLE && ColonFree(job.wants[j].group) {
      assert job.wants[j] in job.wants;
    }
    if call.Get? {
      IndexedForItem(job, p.index, job.wants[p.done]);
    }
  }

  lemma {:induction false} NothingTallied(es: seq<Event>, kind: Kind)
    requires forall e | e in es :: !OfKind(e, kind)
    ensures Tally(es, kind) == 0
  {
    if es != [] {
      assert es[|es| - 1] in es;
      NothingTallied(es[..|es| - 1], kind);
    }
  }

  /** Over a canonical store no run of a job without Role items, whatever its faults, ever gets or
      updates anything. */
  lemma NoUpdatesOnCanonical(job: Job, cs: seq<Config>, es: seq<Event>)
    requires IsRun(job, cs, es)
    requires WellNamed(job, job.home) && AllCanonical(job.home, cs[0].store)
    requires forall w | w in job.wants :: w.item.kind != ROLE
    ensures forall e | e in es && e.Called? :: !e.call.Get? && !e.call.Update?
    ensures Tally(es, Updates) == 0
  {
    hide AllCanonical, ProcCanonical, WellNamed, Issues;
    forall e | e in es && e.Called? ensures !e.call.Get? && !e.call.Update? {
      var i :| 0 <= i < |es| && es[i] == e;
      assert Step(job, cs[i], es[i], cs[i + 1]);
      RunCanonical(job, cs, es, i);
      ClusterCalls(job, cs[i].proc, e.call);
    }
    NothingTallied(es, Updates);
  }
}
