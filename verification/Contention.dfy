/** Overlapping requests for one account that ask for different items, as when the user's groups
change between two logins. */
module Contention {
  import opened Names
  import opened Rbac
  import opened Api
  import opened Reconciler
  import opened SoloRun
  import opened Convergence
  import opened Interleaving
  import opened Serial

  /** The request asks for all of `common`. */
  predicate AsksFor(job: Job, common: set<Key>) {
    common <= Targets(job)
  }

  predicate Holding(job: Job, common: set<Key>, s: Store, ix: Index) {
    forall sl | sl in ix ::
      SlotOf(ix[sl].key) == sl && (ix[sl].key in common ==> ix[sl].key in Held(job, s))
  }

  /** The object about to be written over a common key is managed if the stored one is, and a
      ClusterRoleBinding lists the account. */
  predicate Current(job: Job, common: set<Key>, s: Store, w: Want, fetched: Binding) {
    job.KeyFor(w) in common ==>
      && job.KeyFor(w) in s && fetched.managed == s[job.KeyFor(w)].managed
      && (w.item.kind == CLUSTER_ROLE ==> job.Owns(fetched))
  }

  /** The process takes away nothing common. */
  predicate Sparing(job: Job, common: set<Key>, s: Store, p: Proc) {
    match p
    case ListCluster => true
    case ListNamespaced(ix) => Holding(job, common, s, ix)
    case Ensure(ix, d) => d <= |job.wants| && Holding(job, common, s, ix) && Struck(job, ix, d)
    case Write(ix, d, fetched) =>
      && d < |job.wants| && job.wants[d].Supported() && Holding(job, common, s, ix) && Struck(job, ix, d)
      && Current(job, common, s, job.wants[d], fetched)
    case Prune(ix) => Holding(job, common, s, ix) && Struck(job, ix, |job.wants|)
    case Finished(_) => true
  }

  /** What a step does to the account: nothing common is lost, nothing unasked for appears. */
  predicate Bounded(job: Job, common: set<Key>, all: set<Key>, s: Store, s': Store) {
    && Held(job, s) * common <= Held(job, s') <= Held(job, s) + all
    && (forall k | k in common && k in s :: k in s' && s'[k].managed == s[k].managed)
  }

  lemma BoundedKeepsProc(job: Job, common: set<Key>, all: set<Key>, s: Store, s': Store, p: Proc)
    requires Bounded(job, common, all, s, s') && Sparing(job, common, s, p)
    ensures Sparing(job, common, s', p)
  {
  }

  lemma PutBounded(job: Job, common: set<Key>, s: Store, k: Key, b: Binding)
    requires k in Targets(job)
    requires k in s && k in common ==> b.managed == s[k].managed && (k in Held(job, s) ==> job.Owns(b))
    ensures Bounded(job, common, Targets(job), s, s[k := b])
  {
    HeldAfterPut(job, s, k, b);
  }

  lemma DeletesUncommon(job: Job, common: set<Key>, s: Store, p: Proc, call: Call)
    requires AsksFor(job, common) && Sparing(job, common, s, p) && Issues(job, p, call) && call.Delete?
    ensures call.key !in common
  {
    forall w | w in job.wants && w.Supported() ensures job.KeyFor(w) != call.key {
      var j :| 0 <= j < |job.wants| && job.wants[j] == w;
      assert job.SlotFor(job.wants[j]) !in p.index;
    }
  }

  lemma DeleteBounded(job: Job, common: set<Key>, s: Store, k: Key)
    requires k !in common
    ensures Bounded(job, common, Targets(job), s, s - {k})
  {
  }

  lemma SameBounded(job: Job, common: set<Key>, all: set<Key>, s: Store)
    ensures Bounded(job, common, all, s, s)
  {
  }

  lemma WriteFits(job: Job, common: set<Key>, c: Config, call: Call)
    requires Sparing(job, common, c.store, c.proc) && Issues(job, c.proc, call)
    requires call.Update? || (call.Create? && call.key !in c.store)
    ensures call.key in Targets(job)
    ensures call.key in c.store && call.key in common ==>
              && call.obj.managed == c.store[call.key].managed
              && (call.key in Held(job, c.store) ==> job.Owns(call.obj))
  {
    var w := job.wants[c.proc.done];
    assert w in job.wants && w.Supported() && job.KeyFor(w) == call.key;
    assert job.Me() in [job.Me()];
  }

  lemma OwnStepBounded(job: Job, common: set<Key>, c: Config, e: Event, c': Config)
    requires AsksFor(job, common) && Sparing(job, common, c.store, c.proc) && Step(job, c, e, c')
    ensures Bounded(job, common, Targets(job), c.store, c'.store)
  {
    hide Bounded, Sparing;
    if e.Called? && c'.store != c.store {
      if e.call.Delete? {
        DeletesUncommon(job, common, c.store, c.proc, e.call);
        DeleteBounded(job, common, c.store, e.call.key);
      } else {
        WriteFits(job, common, c, e.call);
        PutBounded(job, common, c.store, e.call.key, e.call.obj);
      }
    } else {
      SameBounded(job, common, Targets(job), c.store);
    }
  }

  lemma ListKeepsProc(job: Job, common: set<Key>, c: Config, e: Event, c': Config)
    requires Sparing(job, common, c.store, c.proc) && Step(job, c, e, c')
    requires c.proc.ListCluster? || c.proc.ListNamespaced?
    ensures Sparing(job, common, c'.store, c'.proc)
  {
    if e.reply.Items? {
      ListingIndexed(job, c.store, e.call.scope, e.reply.items);
    }
  }

  lemma GetKeepsProc(job: Job, common: set<Key>, c: Config, e: Event, c': Config)
    requires Sparing(job, common, c.store, c.proc) && Step(job, c, e, c')
    requires c.proc.Ensure? && e.Called? && e.call.Get?
    ensures Sparing(job, common, c'.store, c'.proc)
  {
    if e.reply.Object? {
      var w := job.wants[c.proc.done];
      if w.item.kind == CLUSTER_ROLE {
        assert c.proc.index[job.SlotFor(w)].key == job.KeyFor(w);
      }
    }
  }

  lemma OwnStepKeepsProc(job: Job, common: set<Key>, c: Config, e: Event, c': Config)
    requires AsksFor(job, common) && Sparing(job, common, c.store, c.proc) && Step(job, c, e, c')
    ensures Sparing(job, common, c'.store, c'.proc)
  {
    OwnStepBounded(job, common, c, e, c');
    BoundedKeepsProc(job, common, Targets(job), c.store, c'.store, c.proc);
    hide Bounded, Served, Current;
    match c.proc
    case ListCluster => ListKeepsProc(job, common, c, e, c');
    case ListNamespaced(_) => ListKeepsProc(job, common, c, e, c');
    case Ensure(ix, d) =>
      if e.Called? && e.call.Get? {
        GetKeepsProc(job, common, c, e, c');
      }
    case _ =>
  }

  /** Every request for the account asks for all of `common` and for nothing outside `all`. */
  ghost predicate Between(user: string, jobs: seq<Job>, common: set<Key>, all: set<Key>) {
    forall i | 0 <= i < |jobs| && jobs[i].user == user :: common <= Targets(jobs[i]) <= all
  }

  ghost predicate AllSparing(user: string, jobs: seq<Job>, common: set<Key>, a: Sys) {
    && |a.procs| == |jobs|
    && forall i | 0 <= i < |jobs| && jobs[i].user == user :: Sparing(jobs[i], common, a.store, a.procs[i])
  }

  /** The account as such, wanting nothing in particular. */
  function Anyone(user: string, home: string): Job {
    Job(user, home, [])
  }

  lemma SameAccount(job: Job, other: Job, common: set<Key>, all: set<Key>, more: set<Key>, s: Store, s': Store)
    requires job.user == other.user && job.home == other.home && all <= more
    requires Bounded(job, common, all, s, s')
    ensures Bounded(other, common, more, s, s')
  {
    assert Held(job, s) == Held(other, s) && Held(job, s') == Held(other, s');
  }

  lemma StrangerBounded(job: Job, common: set<Key>, all: set<Key>, s: Store, s': Store)
    requires ColonFree(job.user) && Tidy(s, job.home) && Tidy(s', job.home) && Agree(job.user, s, s')
    requires forall k | k in common :: Belongs(k.name, job.user)
    ensures Bounded(job, common, all, s, s')
  {
    HeldAgree(job, s, s');
    forall k | k in common ensures Same(s, s', k) {
      assert Belongs(k.name, job.user);
    }
  }

  lemma SysStepBounded(user: string, jobs: seq<Job>, home: string, common: set<Key>, all: set<Key>,
                       hs: seq<Sys>, ms: seq<Move>, t: nat)
    requires IsHistory(jobs, hs, ms) && OneService(jobs, home) && Tidy(hs[0].store, home) && t < |ms|
    requires ColonFree(user) && Between(user, jobs, common, all)
    requires forall k | k in common :: Belongs(k.name, user)
    requires AllSparing(user, jobs, common, hs[t])
    ensures Bounded(Anyone(user, home), common, all, hs[t].store, hs[t + 1].store)
  {
    hide Bounded, Sparing, Step, Tidy, Agree;
    var a, m, b := hs[t], ms[t], hs[t + 1];
    assert SysStep(jobs, a, m, b);
    var i := m.who;
    if jobs[i].user == user {
      OwnStepBounded(jobs[i], common, Config(a.store, a.procs[i]), m.event, Config(b.store, b.procs[i]));
      SameAccount(jobs[i], Anyone(user, home), common, Targets(jobs[i]), all, a.store, b.store);
    } else {
      OthersUntouched(jobs, home, hs, ms, t, user);
      AlwaysOwn(jobs, home, hs, ms, t);
      AlwaysOwn(jobs, home, hs, ms, t + 1);
      StrangerBounded(Anyone(user, home), common, all, a.store, b.store);
    }
  }

  lemma SysStepSparing(user: string, jobs: seq<Job>, home: string, common: set<Key>, all: set<Key>,
                       a: Sys, m: Move, b: Sys)
    requires SysStep(jobs, a, m, b) && OneService(jobs, home) && Between(user, jobs, common, all)
    requires AllSparing(user, jobs, common, a)
    requires Bounded(Anyone(user, home), common, all, a.store, b.store)
    ensures AllSparing(user, jobs, common, b)
  {
    hide Bounded, Sparing, Step;
    forall i | 0 <= i < |jobs| && jobs[i].user == user ensures Sparing(jobs[i], common, b.store, b.procs[i]) {
      if i == m.who {
        OwnStepKeepsProc(jobs[i], common, Config(a.store, a.procs[i]), m.event, Config(b.store, b.procs[i]));
      } else {
        SameAccount(Anyone(user, home), jobs[i], common, all, all, a.store, b.store);
        BoundedKeepsProc(jobs[i], common, all, a.store, b.store, a.procs[i]);
      }
    }
  }

  lemma {:induction false} AlwaysSparing(user: string, jobs: seq<Job>, home: string, common: set<Key>, all: set<Key>,
                                         hs: seq<Sys>, ms: seq<Move>, t: nat)
    requires IsHistory(jobs, hs, ms) && OneService(jobs, home) && Tidy(hs[0].store, home) && t < |hs|
    requires ColonFree(user) && Between(user, jobs, common, all)
    requires forall k | k in common :: Belongs(k.name, user)
    ensures AllSparing(user, jobs, common, hs[t])
  {
    if t > 0 {
      hide AllSparing, Bounded, SysStep, Tidy, Between, OneService;
      AlwaysSparing(user, jobs, home, common, all, hs, ms, t - 1);
      SysStepBounded(user, jobs, home, common, all, hs, ms, t - 1);
      assert SysStep(jobs, hs[t - 1], ms[t - 1], hs[t - 1 + 1]);
      SysStepSparing(user, jobs, home, common, all, hs[t - 1], ms[t - 1], hs[t]);
    } else {
      forall i | 0 <= i < |jobs| && jobs[i].user == user ensures Sparing(jobs[i], common, hs[0].store, hs[0].procs[i]) {
        assert hs[0].procs[i] == ListCluster;
      }
    }
  }

  lemma {:induction false} SandwichInBlock(user: string, jobs: seq<Job>, home: string, common: set<Key>, all: set<Key>,
                                           hs: seq<Sys>, ms: seq<Move>, t: nat, t': nat)
    requires IsHistory(jobs, hs, ms) && OneService(jobs, home) && Tidy(hs[0].store, home) && t <= t' < |hs|
    requires ColonFree(user) && Between(user, jobs, common, all)
    requires forall k | k in common :: Belongs(k.name, user)
    ensures Held(Anyone(user, home), hs[t].store) * common <= Held(Anyone(user, home), hs[t'].store)
    ensures Held(Anyone(user, home), hs[t'].store) <= Held(Anyone(user, home), hs[t].store) + all
    decreases t'
  {
    if t < t' {
      SandwichInBlock(user, jobs, home, common, all, hs, ms, t, t' - 1);
      AlwaysSparing(user, jobs, home, common, all, hs, ms, t' - 1);
      SysStepBounded(user, jobs, home, common, all, hs, ms, t' - 1);
      assert hs[t' - 1 + 1] == hs[t'];
    }
  }

  /** The sandwich for overlapping requests of one account, whatever each asks for: what all of them
      ask for and the account holds stays held, and it never comes to hold what none asks for. */
  lemma ConcurrentSandwich(user: string, jobs: seq<Job>, home: string, common: set<Key>, all: set<Key>,
                           hs: seq<Sys>, ms: seq<Move>, t: nat, t': nat)
    requires IsHistory(jobs, hs, ms) && OneService(jobs, home) && Tidy(hs[0].store, home) && t <= t' < |hs|
    requires ColonFree(user) && Between(user, jobs, common, all)
    ensures Held(Anyone(user, home), hs[t].store) * common <= Held(Anyone(user, home), hs[t'].store)
    ensures Held(Anyone(user, home), hs[t'].store) <= Held(Anyone(user, home), hs[t].store) + all
  {
    var inBlock := set k | k in common && Belongs(k.name, user);
    SandwichInBlock(user, jobs, home, inBlock, all, hs, ms, t, t');
    AlwaysOwn(jobs, home, hs, ms, t);
    forall k | k in Held(Anyone(user, home), hs[t].store) ensures Belongs(k.name, user) {
      OwnedNameBelongs(Anyone(user, home), hs[t].store, k);
    }
  }

  /** One more step of one process. */
  lemma Advance(jobs: seq<Job>, hs: seq<Sys>, ms: seq<Move>, who: nat, e: Event, s: Store, p: Proc)
    returns (hs': seq<Sys>, ms': seq<Move>)
    requires IsHistory(jobs, hs, ms) && who < |jobs| == |hs[|ms|].procs|
    requires Step(jobs[who], Config(hs[|ms|].store, hs[|ms|].procs[who]), e, Config(s, p))
    ensures IsHistory(jobs, hs', ms') && hs'[0] == hs[0]
    ensures hs'[|ms'|] == Sys(s, hs[|ms|].procs[who := p])
  {
    hide Step;
    var a, b, m := hs[|ms|], Sys(s, hs[|ms|].procs[who := p]), Move(who, e);
    hs', ms' := hs + [b], ms + [m];
    assert SysStep(jobs, a, m, b);
    forall t | 0 <= t < |ms'| ensures SysStep(jobs, hs'[t], ms'[t], hs'[t + 1]) {
      if t < |ms| {
        assert SysStep(jobs, hs[t], ms[t], hs[t + 1]);
      }
    }
  }

  /** A request that lists an empty cluster. */
  lemma ListNothing(jobs: seq<Job>, hs: seq<Sys>, ms: seq<Move>, who: nat) returns (hs': seq<Sys>, ms': seq<Move>)
    requires IsHistory(jobs, hs, ms) && who < |jobs| == |hs[|ms|].procs|
    requires hs[|ms|].store == map[] && hs[|ms|].procs[who] == ListCluster
    ensures IsHistory(jobs, hs', ms') && hs'[0] == hs[0]
    ensures hs'[|ms'|] == Sys(map[], hs[|ms|].procs[who := Ensure(map[], 0)])
  {
    hide IsHistory;
    var none: Index := map[];
    var listed := ListNamespaced(none);
    assert Mine(jobs[who].Me(), []) == [] && Indexed([]) == map[];
    assert none + none == none;
    hs', ms' := Advance(jobs, hs, ms, who, Called(List(ClusterWide), NoFault, Items([])), map[], listed);
    hs', ms' := Advance(jobs, hs', ms', who, Called(List(AllNamespaces), NoFault, Items([])), map[], Ensure(map[], 0));
  }

  /** A request that makes its one binding and is through. */
  lemma MakeOne(jobs: seq<Job>, hs: seq<Sys>, ms: seq<Move>, who: nat, w: Want)
    returns (hs': seq<Sys>, ms': seq<Move>)
    requires IsHistory(jobs, hs, ms) && who < |jobs| == |hs[|ms|].procs|
    requires jobs[who].wants == [w] && w.Supported() && jobs[who].KeyFor(w) !in hs[|ms|].store
    requires hs[|ms|].procs[who] == Ensure(map[], 0)
    ensures IsHistory(jobs, hs', ms') && hs'[0] == hs[0]
    ensures hs'[|ms'|] == Sys(hs[|ms|].store[jobs[who].KeyFor(w) := jobs[who].Ideal(w)],
                              hs[|ms|].procs[who := Finished(Succeeded)])
  {
    var job, k := jobs[who], jobs[who].KeyFor(w);
    var s := hs[|ms|].store[k := job.Ideal(w)];
    hide IsHistory;
    var none: Index := map[];
    assert none - {job.SlotFor(w)} == none;
    hs', ms' := Advance(jobs, hs, ms, who, Called(Create(k, job.Ideal(w)), NoFault, Done), s, Ensure(map[], 1));
    hs', ms' := Advance(jobs, hs', ms', who, Local, s, Prune(map[]));
    hs', ms' := Advance(jobs, hs', ms', who, Local, s, Finished(Succeeded));
  }

  /** With different items no more than the sandwich can be promised: two requests that list before
      either writes both report success, without a fault, and neither has converged. */
  lemma DivergentRequests(user: string, home: string, v: Want, w: Want) returns (hs: seq<Sys>, ms: seq<Move>)
    requires ColonFree(user) && v.item.kind == w.item.kind == CLUSTER_ROLE
    requires Anyone(user, home).KeyFor(v) != Anyone(user, home).KeyFor(w)
    ensures var jobs := [Job(user, home, [v]), Job(user, home, [w])];
            && IsHistory(jobs, hs, ms) && OneService(jobs, home) && hs[0].store == map[]
            && hs[|ms|].procs == [Finished(Succeeded), Finished(Succeeded)]
            && !ClusterExact(jobs[0], hs[|ms|].store) && !ClusterExact(jobs[1], hs[|ms|].store)
  {
    var one, two := Job(user, home, [v]), Job(user, home, [w]);
    var jobs := [one, two];
    hs, ms := [Sys(map[], [ListCluster, ListCluster])], [];
    hs, ms := ListNothing(jobs, hs, ms, 0);
    hs, ms := ListNothing(jobs, hs, ms, 1);
    hs, ms := MakeOne(jobs, hs, ms, 0, v);
    hs, ms := MakeOne(jobs, hs, ms, 1, w);
    var s := hs[|ms|].store;
    hide IsHistory;
    PatchMeaning(one, v, one.Ideal(v));
    PatchMeaning(two, w, two.Ideal(w));
    assert one.KeyFor(v) in Held(two, s) && two.KeyFor(w) in Held(one, s);
    assert Targets(one) == {one.KeyFor(v)} && Targets(two) == {two.KeyFor(w)};
  }
}
