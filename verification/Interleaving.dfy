/** Several reconciliations at once, interleaved call by call over one store. */
module Interleaving {
  import opened Names
  import opened Rbac
  import opened Api
  import opened Reconciler
  import opened SoloRun

  datatype Sys = Sys(store: Store, procs: seq<Proc>)

  datatype Move = Move(who: nat, event: Event)

  ghost predicate SysStep(jobs: seq<Job>, a: Sys, m: Move, b: Sys) {
    && |a.procs| == |b.procs| == |jobs|
    && m.who < |jobs|
    && Step(jobs[m.who], Config(a.store, a.procs[m.who]), m.event, Config(b.store, b.procs[m.who]))
    && b.procs == a.procs[m.who := b.procs[m.who]]
  }

  ghost predicate IsHistory(jobs: seq<Job>, hs: seq<Sys>, ms: seq<Move>) {
    && |hs| == |ms| + 1
    && |hs[0].procs| == |jobs|
    && (forall i | 0 <= i < |jobs| :: hs[0].procs[i] == ListCluster)
    && (forall t | 0 <= t < |ms| :: SysStep(jobs, hs[t], ms[t], hs[t + 1]))
  }

  /** All requests are served from one namespace, for accounts without a colon in their name. */
  predicate OneService(jobs: seq<Job>, home: string) {
    forall i | 0 <= i < |jobs| :: jobs[i].home == home && ColonFree(jobs[i].user)
  }

  /** The binding is managed and lists the account. */
  predicate Lists(b: Binding, user: string, home: string) {
    Job(user, home, []).Owns(b)
  }

  predicate NamedForAll(k: Key, b: Binding, home: string) {
    forall s | s in b.subjects && Lists(b, s.name, home) && ColonFree(s.name) :: Belongs(k.name, s.name)
  }

  /** Every managed binding lies in the name block of each account it lists. */
  predicate Tidy(s: Store, home: string) {
    forall k | k in s :: NamedForAll(k, s[k], home)
  }

  predicate IndexOwn(job: Job, ix: Index) {
    forall sl | sl in ix :: Belongs(ix[sl].key.name, job.user)
  }

  /** All a process will ever write to lies in its account's name block. */
  predicate ProcOwn(job: Job, p: Proc) {
    match p
    case ListNamespaced(ix) => IndexOwn(job, ix)
    case Ensure(ix, _) => IndexOwn(job, ix)
    case Write(ix, d, fetched) =>
      IndexOwn(job, ix) && d < |job.wants| && NamedForAll(job.KeyFor(job.wants[d]), fetched, job.home)
    case Prune(ix) => IndexOwn(job, ix)
    case _ => true
  }

  /** The two stores have the same objects in the account's name block. */
  ghost predicate Agree(user: string, s: Store, t: Store) {
    forall k: Key | Belongs(k.name, user) :: Same(s, t, k)
  }

  lemma WantedNameBelongs(job: Job, w: Want)
    ensures Belongs(job.KeyFor(w).name, job.user)
  {
    GeneratedNameBelongs(job.user, w.item.name, w.group);
  }

  lemma OwnedNameBelongs(job: Job, s: Store, k: Key)
    requires Tidy(s, job.home) && ColonFree(job.user)
    requires k in s && job.Owns(s[k])
    ensures Belongs(k.name, job.user)
  {
    assert job.Me() in s[k].subjects && Lists(s[k], job.Me().name, job.home);
  }

  lemma MineOwn(job: Job, s: Store, scope: Scope, items: seq<Listed>)
    requires Tidy(s, job.home) && ColonFree(job.user) && IsListing(s, scope, items)
    ensures IndexOwn(job, Indexed(Mine(job.Me(), items)))
  {
    var ix := Indexed(Mine(job.Me(), items));
    ListingIndexed(job, s, scope, items);
    forall sl | sl in ix ensures Belongs(ix[sl].key.name, job.user) {
      OwnedNameBelongs(job, s, ix[sl].key);
    }
  }

  lemma IdealNamed(job: Job, w: Want)
    ensures NamedForAll(job.KeyFor(w), job.Ideal(w), job.home)
  {
    WantedNameBelongs(job, w);
  }

  lemma PatchNamed(job: Job, w: Want, b: Binding)
    requires NamedForAll(job.KeyFor(w), b, job.home)
    ensures NamedForAll(job.KeyFor(w), job.Patch(w, b), job.home)
  {
    WantedNameBelongs(job, w);
    if w.item.kind == CLUSTER_ROLE {
      var p := job.Patch(w, b);
      forall s | s in p.subjects && Lists(p, s.name, job.home) && ColonFree(s.name)
        ensures Belongs(job.KeyFor(w).name, s.name)
      {
        assert s in b.subjects && Lists(b, s.name, job.home);
      }
    }
  }

  /** A call that a process may issue names only keys of its own account. */
  lemma CallsOwn(job: Job, p: Proc, call: Call)
    requires ProcOwn(job, p) && Issues(job, p, call) && !call.List?
    ensures Belongs(call.key.name, job.user)
    ensures (call.Create? || call.Update?) ==> NamedForAll(call.key, call.obj, job.home)
  {
    match p
    case Ensure(_, d) =>
      WantedNameBelongs(job, job.wants[d]);
      IdealNamed(job, job.wants[d]);
    case Write(_, d, fetched) =>
      WantedNameBelongs(job, job.wants[d]);
      PatchNamed(job, job.wants[d], fetched);
    case _ =>
  }

  lemma EffectOwn(job: Job, s: Store, call: Call)
    requires Tidy(s, job.home)
    requires !call.List? ==> Belongs(call.key.name, job.user)
    requires (call.Create? || call.Update?) ==> NamedForAll(call.key, call.obj, job.home)
    ensures Tidy(Effect(s, call), job.home)
    ensures forall k: Key | !Belongs(k.name, job.user) :: Same(s, Effect(s, call), k)
  {
  }

  /** A step keeps the store tidy and changes nothing outside its account's name block. */
  lemma StepOwn(job: Job, c: Config, e: Event, c': Config)
    requires Tidy(c.store, job.home) && ProcOwn(job, c.proc) && ColonFree(job.user)
    requires Step(job, c, e, c')
    ensures Tidy(c'.store, job.home) && ProcOwn(job, c'.proc)
    ensures forall k: Key | !Belongs(k.name, job.user) :: Same(c.store, c'.store, k)
  {
    if e.Called? {
      if e.call.List? {
        if e.reply.Items? {
          MineOwn(job, c.store, e.call.scope, e.reply.items);
        }
      } else {
        CallsOwn(job, c.proc, e.call);
        EffectOwn(job, c.store, e.call);
      }
    }
  }

  lemma {:induction false} AlwaysOwn(jobs: seq<Job>, home: string, hs: seq<Sys>, ms: seq<Move>, t: nat)
    requires IsHistory(jobs, hs, ms) && OneService(jobs, home) && Tidy(hs[0].store, home) && t < |hs|
    ensures |hs[t].procs| == |jobs| && Tidy(hs[t].store, home)
    ensures forall i | 0 <= i < |jobs| :: ProcOwn(jobs[i], hs[t].procs[i])
  {
    if t > 0 {
      AlwaysOwn(jobs, home, hs, ms, t - 1);
      var a, m, b := hs[t - 1], ms[t - 1], hs[t];
      assert SysStep(jobs, a, m, hs[t - 1 + 1]);
      var i := m.who;
      StepOwn(jobs[i], Config(a.store, a.procs[i]), m.event, Config(b.store, b.procs[i]));
    }
  }

  /** A step of one account leaves another account's bindings alone. */
  lemma OthersUntouched(jobs: seq<Job>, home: string, hs: seq<Sys>, ms: seq<Move>, t: nat, user: string)
    requires IsHistory(jobs, hs, ms) && OneService(jobs, home) && Tidy(hs[0].store, home) && t < |ms|
    requires ms[t].who < |jobs| ==> jobs[ms[t].who].user != user
    requires ColonFree(user)
    ensures Agree(user, hs[t].store, hs[t + 1].store)
  {
    AlwaysOwn(jobs, home, hs, ms, t);
    var a, m, b := hs[t], ms[t], hs[t + 1];
    assert SysStep(jobs, a, m, b);
    var i := m.who;
    StepOwn(jobs[i], Config(a.store, a.procs[i]), m.event, Config(b.store, b.procs[i]));
    forall k: Key | Belongs(k.name, user) ensures Same(a.store, b.store, k) {
      if Belongs(k.name, jobs[i].user) {
        BelongsToOne(k.name, user, jobs[i].user);
      }
    }
  }
}
