/** Overlapping requests for one account that ask for the same items. */
module Overlap {
  import opened Names
  import opened Rbac
  import opened Api
  import opened Reconciler
  import opened SoloRun
  import opened Safety
  import opened Convergence
  import opened Interleaving
  import opened Serial

  /** The other job is for the same account and the same items, in any order and repetition. */
  ghost predicate SameRequest(job: Job, other: Job) {
    && other.user == job.user && other.home == job.home
    && (forall w :: w in other.wants <==> w in job.wants)
  }

  /** Items for one key ask for one role reference. */
  predicate Coherent(job: Job) {
    forall v, w |
      && v in job.wants && w in job.wants && v.Supported() && w.Supported()
      && job.KeyFor(v) == job.KeyFor(w) ::
      job.RefFor(v) == job.RefFor(w)
  }

  /** No other key of `us` has the name of `k` in another namespace. */
  predicate Clear(us: set<Key>, k: Key) {
    forall h | h in us && SlotOf(h) == SlotOf(k) :: h == k
  }

  /** An item that the listed object matched is matched by the stored one. */
  predicate Fresh(job: Job, s: Store, x: Listed) {
    forall w | w in job.wants && w.Supported() && job.KeyFor(w) == x.key && job.Matches(w, x.obj) ::
      x.key in s && job.Matches(w, s[x.key])
  }

  predicate GoodIndex(job: Job, us: set<Key>, s: Store, ix: Index) {
    forall sl | sl in ix ::
      && SlotOf(ix[sl].key) == sl && ix[sl].key in us
      && (ix[sl].key in Targets(job) ==> ix[sl].key in Held(job, s) && Fresh(job, s, ix[sl]))
  }

  predicate Covers(job: Job, us: set<Key>, s: Store, ix: Index) {
    forall k | k in Held(job, s) && Clear(us, k) && k !in Targets(job) :: SlotOf(k) in ix
  }

  predicate HasItem(job: Job, s: Store, w: Want) {
    job.KeyFor(w) in Held(job, s) && job.Matches(w, s[job.KeyFor(w)])
  }

  predicate DoneTo(job: Job, us: set<Key>, s: Store, d: nat)
    requires d <= |job.wants|
  {
    forall j | 0 <= j < d && job.wants[j].Supported() && Clear(us, job.KeyFor(job.wants[j])) ::
      HasItem(job, s, job.wants[j])
  }

  /** Apart from names spread over several namespaces, the account holds what was asked for. */
  ghost predicate Converged(job: Job, us: set<Key>, s: Store) {
    && (forall k | Clear(us, k) :: k in Held(job, s) <==> k in Targets(job))
    && (forall w | w in job.wants && w.Supported() && Clear(us, job.KeyFor(w)) :: HasItem(job, s, w))
  }

  predicate WriteInv(job: Job, s: Store, w: Want, fetched: Binding) {
    && job.KeyFor(w) in s && fetched.managed == s[job.KeyFor(w)].managed
    && (w.item.kind == CLUSTER_ROLE ==> job.Owns(fetched))
  }

  ghost predicate ProcInv(job: Job, us: set<Key>, s: Store, p: Proc) {
    match p
    case ListCluster => true
    case ListNamespaced(ix) =>
      && GoodIndex(job, us, s, ix)
      && (forall k | k in Held(job, s) && k.Cluster? && k !in Targets(job) :: SlotOf(k) in ix)
    case Ensure(ix, d) =>
      && d <= |job.wants| && GoodIndex(job, us, s, ix) && Covers(job, us, s, ix)
      && Struck(job, ix, d) && DoneTo(job, us, s, d)
    case Write(ix, d, fetched) =>
      && d < |job.wants| && job.wants[d].Supported() && job.SlotFor(job.wants[d]) in ix
      && GoodIndex(job, us, s, ix) && Covers(job, us, s, ix) && Struck(job, ix, d) && DoneTo(job, us, s, d)
      && WriteInv(job, s, job.wants[d], fetched)
    case Prune(ix) =>
      && GoodIndex(job, us, s, ix) && Covers(job, us, s, ix) && Struck(job, ix, |job.wants|)
      && DoneTo(job, us, s, |job.wants|)
    case Finished(Succeeded) => Converged(job, us, s)
    case Finished(_) => true
  }

  /** No step loses a wanted binding, brings in an unwanted one, or unmakes a match. */
  predicate Toward(job: Job, s: Store, s': Store) {
    && Held(job, s) * Targets(job) <= Held(job, s') <= Held(job, s) + Targets(job)
    && (forall k | k in Targets(job) && k in s :: k in s' && s'[k].managed == s[k].managed)
    && (forall w | w in job.wants && w.Supported() && HasItem(job, s, w) :: HasItem(job, s', w))
  }

  lemma TowardKeepsIndex(job: Job, us: set<Key>, s: Store, s': Store, ix: Index)
    requires Toward(job, s, s') && GoodIndex(job, us, s, ix)
    ensures GoodIndex(job, us, s', ix)
  {
    forall sl | sl in ix && ix[sl].key in Targets(job)
      ensures ix[sl].key in Held(job, s') && Fresh(job, s', ix[sl])
    {
      forall w | w in job.wants && w.Supported() && job.KeyFor(w) == ix[sl].key && job.Matches(w, ix[sl].obj)
        ensures HasItem(job, s', w)
      {
        assert Fresh(job, s, ix[sl]);
        assert HasItem(job, s, w);
      }
    }
  }

  lemma TowardKeepsProc(job: Job, us: set<Key>, s: Store, s': Store, p: Proc)
    requires Toward(job, s, s') && ProcInv(job, us, s, p)
    ensures ProcInv(job, us, s', p)
  {
    hide GoodIndex, HasItem, Clear;
    match p
    case ListNamespaced(ix) => TowardKeepsIndex(job, us, s, s', ix);
    case Ensure(ix, d) => TowardKeepsIndex(job, us, s, s', ix);
    case Write(ix, d, _) =>
      TowardKeepsIndex(job, us, s, s', ix);
      assert job.wants[d] in job.wants;
    case Prune(ix) => TowardKeepsIndex(job, us, s, s', ix);
    case _ =>
  }

  lemma AgreeIsToward(job: Job, s: Store, s': Store)
    requires ColonFree(job.user) && Tidy(s, job.home) && Tidy(s', job.home) && Agree(job.user, s, s')
    ensures Toward(job, s, s')
  {
    HeldAgree(job, s, s');
    forall w | w in job.wants && w.Supported() ensures Same(s, s', job.KeyFor(w)) {
      WantedNameBelongs(job, w);
    }
  }

  lemma PutIsToward(job: Job, s: Store, w: Want, b: Binding)
    requires Coherent(job) && w in job.wants && w.Supported() && job.Matches(w, b)
    requires job.KeyFor(w) in s ==> b.managed == s[job.KeyFor(w)].managed
    requires job.KeyFor(w) in Held(job, s) ==> job.Owns(b)
    ensures Toward(job, s, s[job.KeyFor(w) := b])
  {
    var k := job.KeyFor(w);
    assert k in Targets(job);
    HeldAfterPut(job, s, k, b);
    forall v | v in job.wants && v.Supported() && HasItem(job, s, v) ensures HasItem(job, s[k := b], v) {
      if job.KeyFor(v) == k {
        assert job.RefFor(v) == job.RefFor(w);
      }
    }
  }

  lemma DeleteIsToward(job: Job, s: Store, k: Key)
    requires k !in Targets(job)
    ensures Toward(job, s, s - {k})
  {
    forall w | w in job.wants && w.Supported() && HasItem(job, s, w) ensures HasItem(job, s - {k}, w) {
      assert job.KeyFor(w) in Targets(job);
    }
  }

  /** What a process deletes is never wanted. */
  lemma PrunesUnwanted(job: Job, us: set<Key>, s: Store, p: Proc, call: Call)
    requires ProcInv(job, us, s, p) && Issues(job, p, call) && call.Delete?
    ensures call.key !in Targets(job)
  {
    forall w | w in job.wants && w.Supported() ensures job.KeyFor(w) != call.key {
      var j :| 0 <= j < |job.wants| && job.wants[j] == w;
      assert job.SlotFor(job.wants[j]) !in p.index;
    }
  }

  lemma ToSelf(job: Job, s: Store)
    ensures Toward(job, s, s)
  {
  }

  lemma WriteMeaning(job: Job, us: set<Key>, c: Config)
    requires ProcInv(job, us, c.store, c.proc) && c.proc.Write?
    ensures c.proc.done < |job.wants|
    ensures var w := job.wants[c.proc.done];
            && w in job.wants && w.Supported() && WriteInv(job, c.store, w, c.proc.fetched)
            && job.Patch(w, c.proc.fetched).managed == c.store[job.KeyFor(w)].managed
            && (job.KeyFor(w) in Held(job, c.store) ==> job.Owns(job.Patch(w, c.proc.fetched)))
  {
    var w := job.wants[c.proc.done];
    assert job.Me() in [job.Me()];
  }

  lemma OwnStepToward(job: Job, us: set<Key>, c: Config, e: Event, c': Config)
    requires Coherent(job) && ProcInv(job, us, c.store, c.proc) && Step(job, c, e, c')
    ensures Toward(job, c.store, c'.store)
  {
    hide ProcInv, Toward, Coherent;
    ToSelf(job, c.store);
    if e.Called? && e.call.Create? && c'.store != c.store {
      var w := job.wants[c.proc.done];
      PatchMeaning(job, w, e.call.obj);
      PutIsToward(job, c.store, w, e.call.obj);
    } else if e.Called? && e.call.Update? && c'.store != c.store {
      var w := job.wants[c.proc.done];
      WriteMeaning(job, us, c);
      PatchMeaning(job, w, c.proc.fetched);
      PutIsToward(job, c.store, w, e.call.obj);
    } else if e.Called? && e.call.Delete? {
      PrunesUnwanted(job, us, c.store, c.proc, e.call);
      DeleteIsToward(job, c.store, e.call.key);
    }
  }

  lemma ListedGood(job: Job, us: set<Key>, s: Store, scope: Scope, items: seq<Listed>)
    requires Held(job, s) <= us && IsListing(s, scope, items)
    ensures var ix := Indexed(Mine(job.Me(), items));
            && GoodIndex(job, us, s, ix)
            && (forall sl | sl in ix :: sl.scope == scope)
            && (forall k | k in Held(job, s) && ScopeOf(k) == scope :: SlotOf(k) in ix)
  {
    ListingIndexed(job, s, scope, items);
  }

  lemma ListKeepsProc(job: Job, us: set<Key>, c: Config, e: Event, c': Config)
    requires Held(job, c.store) <= us
    requires ProcInv(job, us, c.store, c.proc) && Step(job, c, e, c')
    requires c.proc.ListCluster? || c.proc.ListNamespaced?
    ensures ProcInv(job, us, c'.store, c'.proc)
  {
    if e.reply.Items? {
      hide IsListing, Mine, Indexed, Fresh, Held;
      ListedGood(job, us, c.store, e.call.scope, e.reply.items);
      if c.proc.ListNamespaced? {
        forall k | k in Held(job, c.store) && k !in Targets(job) ensures SlotOf(k) in c'.proc.index {
          assert k.Cluster? || ScopeOf(k) == AllNamespaces;
        }
      }
    }
  }

  /** Item `d` has its binding at its key, if the key is clear: on to the next. */
  lemma NextItem(job: Job, us: set<Key>, s: Store, ix: Index, d: nat)
    requires Targets(job) <= us && d < |job.wants| && job.wants[d].Supported()
    requires GoodIndex(job, us, s, ix) && Covers(job, us, s, ix) && Struck(job, ix, d) && DoneTo(job, us, s, d)
    requires Clear(us, job.KeyFor(job.wants[d])) ==> HasItem(job, s, job.wants[d])
    ensures ProcInv(job, us, s, Ensure(ix - {job.SlotFor(job.wants[d])}, d + 1))
  {
    var w := job.wants[d];
    assert w in job.wants && job.KeyFor(w) in Targets(job);
    var ix' := ix - {job.SlotFor(w)};
    forall k | k in Held(job, s) && Clear(us, k) && k !in Targets(job) ensures SlotOf(k) in ix' {
      assert job.KeyFor(w) in us;
    }
  }

  lemma AllDone(job: Job, us: set<Key>, s: Store)
    requires Covers(job, us, s, map[]) && DoneTo(job, us, s, |job.wants|)
    ensures Converged(job, us, s)
  {
    forall w | w in job.wants && w.Supported() && Clear(us, job.KeyFor(w)) ensures HasItem(job, s, w) {
      var j :| 0 <= j < |job.wants| && job.wants[j] == w;
    }
    forall k | Clear(us, k) ensures k in Held(job, s) <==> k in Targets(job) {
      if k in Targets(job) {
        var w :| w in job.wants && w.Supported() && job.KeyFor(w) == k;
        assert HasItem(job, s, w);
      }
    }
  }

  lemma LocalKeepsProc(job: Job, us: set<Key>, c: Config, c': Config)
    requires Targets(job) <= us
    requires ProcInv(job, us, c.store, c.proc) && Step(job, c, Local, c')
    ensures ProcInv(job, us, c'.store, c'.proc)
  {
    match c.proc
    case Ensure(ix, d) =>
      if d < |job.wants| && job.wants[d].Supported() {
        var w := job.wants[d];
        assert w in job.wants && job.KeyFor(w) in us;
        assert Clear(us, job.KeyFor(w)) ==> HasItem(job, c.store, w);
        NextItem(job, us, c.store, ix, d);
      }
    case Prune(ix) => AllDone(job, us, c.store);
    case _ =>
  }

  lemma GetKeepsProc(job: Job, us: set<Key>, c: Config, e: Event, c': Config)
    requires Targets(job) <= us
    requires ProcInv(job, us, c.store, c.proc) && Step(job, c, e, c')
    requires e.Called? && e.call.Get? && c.proc.Ensure?
    ensures ProcInv(job, us, c'.store, c'.proc)
  {
    if e.reply.Object? {
      var w := job.wants[c.proc.done];
      assert w in job.wants && job.KeyFor(w) in us && job.KeyFor(w) in Targets(job);
      if w.item.kind == CLUSTER_ROLE {
        assert c.proc.index[job.SlotFor(w)].key == job.KeyFor(w);
      }
    }
  }

  lemma ClearIsOwned(job: Job, us: set<Key>, c: Config)
    requires Targets(job) <= us
    requires ProcInv(job, us, c.store, c.proc) && c.proc.Write?
    ensures var w := job.wants[c.proc.done];
            Clear(us, job.KeyFor(w)) ==> job.KeyFor(w) in Held(job, c.store)
  {
    var w := job.wants[c.proc.done];
    assert w in job.wants && job.KeyFor(w) in Targets(job);
  }

  lemma EnsureKeepsProc(job: Job, us: set<Key>, c: Config, e: Event, c': Config)
    requires Targets(job) <= us && Coherent(job)
    requires ProcInv(job, us, c.store, c.proc) && Step(job, c, e, c')
    requires e.Called? && (e.call.Create? || e.call.Update?)
    ensures ProcInv(job, us, c'.store, c'.proc)
  {
    if !e.reply.Failed? {
      var w := job.wants[c.proc.done];
      OwnStepToward(job, us, c, e, c');
      TowardKeepsProc(job, us, c.store, c'.store, c.proc);
      if e.call.Update? {
        WriteMeaning(job, us, c);
        PatchMeaning(job, w, c.proc.fetched);
        ClearIsOwned(job, us, c);
      } else {
        PatchMeaning(job, w, e.call.obj);
      }
      NextItem(job, us, c'.store, c.proc.index, c.proc.done);
    }
  }

  lemma PruneKeepsProc(job: Job, us: set<Key>, c: Config, e: Event, c': Config)
    requires Coherent(job)
    requires ProcInv(job, us, c.store, c.proc) && Step(job, c, e, c')
    requires e.Called? && c.proc.Prune?
    ensures ProcInv(job, us, c'.store, c'.proc)
  {
    if !e.reply.Failed? {
      OwnStepToward(job, us, c, e, c');
      TowardKeepsProc(job, us, c.store, c'.store, c.proc);
      var ix, s', sl := c.proc.index, c'.store, SlotOf(e.call.key);
      forall k | k in Held(job, s') && Clear(us, k) && k !in Targets(job) ensures SlotOf(k) in ix - {sl} {
        assert SlotOf(k) in ix;
        assert ix[sl].key in us;
      }
    }
  }

  lemma OwnStepKeepsProc(job: Job, us: set<Key>, c: Config, e: Event, c': Config)
    requires Targets(job) <= us && Held(job, c.store) <= us && Coherent(job)
    requires ProcInv(job, us, c.store, c.proc) && Step(job, c, e, c')
    ensures ProcInv(job, us, c'.store, c'.proc)
  {
    hide ProcInv, Coherent;
    if e.Local? {
      LocalKeepsProc(job, us, c, c');
    } else {
      match e.call
      case List(_) => ListKeepsProc(job, us, c, e, c');
      case Get(_) => GetKeepsProc(job, us, c, e, c');
      case Delete(_) => PruneKeepsProc(job, us, c, e, c');
      case _ => EnsureKeepsProc(job, us, c, e, c');
    }
  }

  /** All keys the account held at the start or is to hold. */
  function Universe(job: Job, s0: Store): set<Key> {
    Held(job, s0) + Targets(job)
  }

  /** Every request for the account asks for the same; other accounts may ask for anything. */
  ghost predicate OneRequest(job: Job, jobs: seq<Job>, home: string) {
    && job.home == home && ColonFree(job.user) && Coherent(job)
    && OneService(jobs, home)
    && (forall i | 0 <= i < |jobs| && jobs[i].user == job.user :: SameRequest(job, jobs[i]))
  }

  lemma SameRequestSharesAll(job: Job, other: Job, s: Store)
    requires SameRequest(job, other)
    ensures Held(other, s) == Held(job, s) && Targets(other) == Targets(job)
    ensures Coherent(job) ==> Coherent(other)
  {
  }

  lemma SameRequestSharesToward(job: Job, other: Job, s: Store, s': Store)
    requires SameRequest(job, other)
    ensures Toward(job, s, s') <==> Toward(other, s, s')
  {
    SameRequestSharesAll(job, other, s);
    SameRequestSharesAll(job, other, s');
    forall w ensures HasItem(other, s, w) <==> HasItem(job, s, w) {
    }
    forall w ensures HasItem(other, s', w) <==> HasItem(job, s', w) {
    }
  }

  /** The invariant of a history: the account holds nothing unforeseen, and each of its requests is
      on course. */
  ghost predicate OnCourse(job: Job, jobs: seq<Job>, us: set<Key>, a: Sys) {
    && |a.procs| == |jobs|
    && Held(job, a.store) <= us
    && (forall i | 0 <= i < |jobs| && jobs[i].user == job.user :: ProcInv(jobs[i], us, a.store, a.procs[i]))
  }

  lemma SysStepToward(job: Job, jobs: seq<Job>, home: string, us: set<Key>, hs: seq<Sys>, ms: seq<Move>, t: nat)
    requires IsHistory(jobs, hs, ms) && OneRequest(job, jobs, home) && Tidy(hs[0].store, home) && t < |ms|
    requires OnCourse(job, jobs, us, hs[t])
    ensures Toward(job, hs[t].store, hs[t + 1].store)
  {
    hide ProcInv, Toward, Coherent, SameRequest, Step;
    var a, m, b := hs[t], ms[t], hs[t + 1];
    assert SysStep(jobs, a, m, b);
    var i := m.who;
    if jobs[i].user == job.user {
      SameRequestSharesAll(job, jobs[i], a.store);
      OwnStepToward(jobs[i], us, Config(a.store, a.procs[i]), m.event, Config(b.store, b.procs[i]));
      SameRequestSharesToward(job, jobs[i], a.store, b.store);
    } else {
      OthersUntouched(jobs, home, hs, ms, t, job.user);
      AlwaysOwn(jobs, home, hs, ms, t);
      AlwaysOwn(jobs, home, hs, ms, t + 1);
      AgreeIsToward(job, a.store, b.store);
    }
  }

  lemma TowardStaysInside(job: Job, us: set<Key>, s: Store, s': Store)
    requires Toward(job, s, s') && Held(job, s) <= us && Targets(job) <= us
    ensures Held(job, s') <= us
  {
  }

  lemma SysStepOnCourse(job: Job, jobs: seq<Job>, us: set<Key>, a: Sys, m: Move, b: Sys, home: string)
    requires OneRequest(job, jobs, home) && SysStep(jobs, a, m, b) && OnCourse(job, jobs, us, a)
    requires Toward(job, a.store, b.store) && Targets(job) <= us
    ensures OnCourse(job, jobs, us, b)
  {
    hide ProcInv, Toward, Coherent, SameRequest, Step;
    TowardStaysInside(job, us, a.store, b.store);
    forall i | 0 <= i < |jobs| && jobs[i].user == job.user
      ensures ProcInv(jobs[i], us, b.store, b.procs[i])
    {
      SameRequestSharesAll(job, jobs[i], a.store);
      if i == m.who {
        OwnStepKeepsProc(jobs[i], us, Config(a.store, a.procs[i]), m.event, Config(b.store, b.procs[i]));
      } else {
        SameRequestSharesToward(job, jobs[i], a.store, b.store);
        TowardKeepsProc(jobs[i], us, a.store, b.store, a.procs[i]);
      }
    }
  }

  lemma UniverseMeaning(job: Job, s0: Store)
    ensures Held(job, s0) <= Universe(job, s0) && Targets(job) <= Universe(job, s0)
  {
  }

  lemma StartsOnCourse(job: Job, jobs: seq<Job>, a: Sys)
    requires |a.procs| == |jobs| && forall i | 0 <= i < |jobs| :: a.procs[i] == ListCluster
    ensures OnCourse(job, jobs, Universe(job, a.store), a)
  {
  }

  lemma {:induction false} AlwaysOnCourse(job: Job, jobs: seq<Job>, home: string, hs: seq<Sys>, ms: seq<Move>, t: nat)
    requires IsHistory(jobs, hs, ms) && OneRequest(job, jobs, home) && Tidy(hs[0].store, home) && t < |hs|
    ensures OnCourse(job, jobs, Universe(job, hs[0].store), hs[t])
  {
    var us := Universe(job, hs[0].store);
    if t == 0 {
      StartsOnCourse(job, jobs, hs[0]);
    } else {
      hide OnCourse, Universe, OneRequest, Tidy, Toward, SysStep;
      AlwaysOnCourse(job, jobs, home, hs, ms, t - 1);
      assert Targets(job) <= us by {
        UniverseMeaning(job, hs[0].store);
      }
      SysStepToward(job, jobs, home, us, hs, ms, t - 1);
      assert SysStep(jobs, hs[t - 1], ms[t - 1], hs[t - 1 + 1]);
      SysStepOnCourse(job, jobs, us, hs[t - 1], ms[t - 1], hs[t], home);
    }
  }

  /** However requests for one account overlap, a wanted binding once held is never lost and an
      unwanted one never comes back. */
  lemma {:induction false} NeverLost(job: Job, jobs: seq<Job>, home: string, hs: seq<Sys>, ms: seq<Move>,
                                     t: nat, t': nat)
    requires IsHistory(jobs, hs, ms) && OneRequest(job, jobs, home) && Tidy(hs[0].store, home)
    requires t <= t' < |hs|
    ensures Held(job, hs[t].store) * Targets(job) <= Held(job, hs[t'].store)
    ensures Held(job, hs[t'].store) - Targets(job) <= Held(job, hs[t].store) - Targets(job)
    decreases t'
  {
    if t < t' {
      NeverLost(job, jobs, home, hs, ms, t, t' - 1);
      AlwaysOnCourse(job, jobs, home, hs, ms, t' - 1);
      SysStepToward(job, jobs, home, Universe(job, hs[0].store), hs, ms, t' - 1);
      assert hs[t' - 1 + 1] == hs[t'];
    }
  }

  /** No request for the account ever asks to delete a wanted binding. */
  lemma NeverDeletesWanted(job: Job, jobs: seq<Job>, home: string, hs: seq<Sys>, ms: seq<Move>,
                           t: nat, i: nat, call: Call)
    requires IsHistory(jobs, hs, ms) && OneRequest(job, jobs, home) && Tidy(hs[0].store, home) && t < |hs|
    requires i < |jobs| && i < |hs[t].procs| && jobs[i].user == job.user
    requires Issues(jobs[i], hs[t].procs[i], call) && call.Delete?
    ensures call.key !in Targets(job)
  {
    AlwaysOnCourse(job, jobs, home, hs, ms, t);
    SameRequestSharesAll(job, jobs[i], hs[t].store);
    PrunesUnwanted(jobs[i], Universe(job, hs[0].store), hs[t].store, hs[t].procs[i], call);
  }

  lemma {:induction false} StaysFinished(jobs: seq<Job>, hs: seq<Sys>, ms: seq<Move>, i: nat, t: nat, t': nat)
    requires IsHistory(jobs, hs, ms) && t <= t' < |hs| && i < |jobs|
    requires i < |hs[t].procs| && hs[t].procs[i].Finished?
    ensures i < |hs[t'].procs| && hs[t'].procs[i] == hs[t].procs[i]
    decreases t'
  {
    if t < t' {
      StaysFinished(jobs, hs, ms, i, t, t' - 1);
      assert SysStep(jobs, hs[t' - 1], ms[t' - 1], hs[t' - 1 + 1]);
    }
  }

  /** Once any one request for the account has reported success, the account's bindings have
      converged, and they stay so whatever the remaining requests do, failing ones included. */
  lemma OverlapConverges(job: Job, jobs: seq<Job>, home: string, hs: seq<Sys>, ms: seq<Move>, i: nat, t: nat, t': nat)
    requires IsHistory(jobs, hs, ms) && OneRequest(job, jobs, home) && Tidy(hs[0].store, home)
    requires t <= t' < |hs| && i < |jobs| && jobs[i].user == job.user
    requires i < |hs[t].procs| && hs[t].procs[i] == Finished(Succeeded)
    ensures Converged(job, Universe(job, hs[0].store), hs[t'].store)
  {
    StaysFinished(jobs, hs, ms, i, t, t');
    AlwaysOnCourse(job, jobs, home, hs, ms, t');
    SameRequestSharesAll(job, jobs[i], hs[t'].store);
    var us := Universe(job, hs[0].store);
    assert ProcInv(jobs[i], us, hs[t'].store, hs[t'].procs[i]);
    forall w | w in job.wants && w.Supported() && Clear(us, job.KeyFor(w)) ensures HasItem(job, hs[t'].store, w) {
      assert HasItem(jobs[i], hs[t'].store, w);
    }
  }

  lemma ClusterKeysClear(us: set<Key>, k: Key)
    requires k.Cluster?
    ensures Clear(us, k)
  {
    forall h | h in us && SlotOf(h) == SlotOf(k) ensures h == k {
      assert h.Cluster?;
    }
  }

  /** For ClusterRoleBindings that is all of them, from whatever tidy store. */
  lemma OverlapClusterExact(job: Job, jobs: seq<Job>, home: string, hs: seq<Sys>, ms: seq<Move>,
                            i: nat, t: nat, t': nat)
    requires IsHistory(jobs, hs, ms) && OneRequest(job, jobs, home) && Tidy(hs[0].store, home)
    requires t <= t' < |hs| && i < |jobs| && jobs[i].user == job.user
    requires i < |hs[t].procs| && hs[t].procs[i] == Finished(Succeeded)
    ensures ClusterExact(job, hs[t'].store)
  {
    OverlapConverges(job, jobs, home, hs, ms, i, t, t');
    var us := Universe(job, hs[0].store);
    forall k: Key | k.Cluster? ensures Clear(us, k) {
      ClusterKeysClear(us, k);
    }
    forall w | w in job.wants && w.item.kind == CLUSTER_ROLE ensures HasItem(job, hs[t'].store, w) {
      assert Clear(us, job.KeyFor(w));
    }
  }

  /** Where no name is spread over namespaces, the account then holds exactly what was asked for. */
  lemma OverlapExact(job: Job, jobs: seq<Job>, home: string, hs: seq<Sys>, ms: seq<Move>, i: nat, t: nat, t': nat)
    requires IsHistory(jobs, hs, ms) && OneRequest(job, jobs, home) && Tidy(hs[0].store, home)
    requires t <= t' < |hs| && i < |jobs| && jobs[i].user == job.user
    requires i < |hs[t].procs| && hs[t].procs[i] == Finished(Succeeded)
    requires forall k | k in Universe(job, hs[0].store) :: Clear(Universe(job, hs[0].store), k)
    ensures Held(job, hs[t'].store) == Targets(job)
    ensures forall w | w in job.wants && w.Supported() :: HasItem(job, hs[t'].store, w)
  {
    OverlapConverges(job, jobs, home, hs, ms, i, t, t');
    AlwaysOnCourse(job, jobs, home, hs, ms, t');
    forall w | w in job.wants && w.Supported() ensures HasItem(job, hs[t'].store, w) {
      assert job.KeyFor(w) in Targets(job);
      assert Clear(Universe(job, hs[0].store), job.KeyFor(w));
    }
    forall k | k in Universe(job, hs[0].store) ensures k in Held(job, hs[t'].store) <==> k in Targets(job) {
    }
  }

  /** Jobs that grant ClusterRoles only are coherent. */
  lemma ClusterOnlyCoherent(job: Job)
    requires GroupsColonFree(job)
    requires forall w | w in job.wants :: w.item.kind != ROLE
    ensures Coherent(job)
  {
    forall v, w | v in job.wants && w in job.wants && v.Supported() && w.Supported() && job.KeyFor(v) == job.KeyFor(w)
      ensures job.RefFor(v) == job.RefFor(w)
    {
      KeyFixesRole(job, v, w);
    }
  }
}
