/** The store a job aims at, as a function of the store it starts from, and what follows from there
being such a function: retries and reorderings cannot change where a job ends. */
module Goals {
  import opened Rbac
  import opened Reconciler
  import opened SoloRun
  import opened Safety
  import opened Convergence
  import opened Names
  import opened Wanted

  predicate DistinctSlots(job: Job) {
    forall i, j | 0 <= i < j < |job.wants| && job.wants[i].Supported() && job.wants[j].Supported() ::
      job.SlotFor(job.wants[i]) != job.SlotFor(job.wants[j])
  }

  /** No RoleBinding name is held in two namespaces, or in another one than the item for it asks. */
  predicate NamesInPlace(job: Job, s: Store) {
    && (forall w | w in job.wants && w.Supported() :: Aligned(job, s, w))
    && (forall h, k | h in Held(job, s) && k in Held(job, s) && SlotOf(h) == SlotOf(k) :: h == k)
  }

  /** What a fault-free run needs to do its work. */
  predicate Ready(job: Job, s: Store) {
    DistinctSlots(job) && NoForeign(job, s) && NamesInPlace(job, s)
  }

  ghost function WantFor(job: Job, k: Key): Want
    requires k in Targets(job)
  {
    var w :| w in job.wants && w.Supported() && job.KeyFor(w) == k;
    w
  }

  ghost function GoalAt(job: Job, s: Store, k: Key): Binding
    requires k in s || k in Targets(job)
  {
    if k !in Targets(job) then s[k]
    else if k in s then job.Patch(WantFor(job, k), s[k])
    else job.Ideal(WantFor(job, k))
  }

  /** Everyone else's objects as they are, the account's unwanted ones gone, the wanted ones made or
      updated. */
  ghost function Goal(job: Job, s: Store): Store {
    map k | k in (s.Keys - Held(job, s)) + Targets(job) :: GoalAt(job, s, k)
  }

  lemma UniqueWant(job: Job, w: Want)
    requires DistinctSlots(job) && w in job.wants && w.Supported()
    ensures job.KeyFor(w) in Targets(job) && WantFor(job, job.KeyFor(w)) == w
  {
    var v := WantFor(job, job.KeyFor(w));
    var i :| 0 <= i < |job.wants| && job.wants[i] == w;
    var j :| 0 <= j < |job.wants| && job.wants[j] == v;
    assert job.SlotFor(v) == job.SlotFor(w);
  }

  lemma ReadyMeansConsistent(job: Job, s: Store)
    requires Ready(job, s)
    ensures OneNamespacePerName(job, s) && DistinctKeys(job)
  {
    forall j | 0 <= j < |job.wants| && job.wants[j].Supported() ensures InPlace(job, s, j) {
      assert job.wants[j] in job.wants;
    }
  }

  lemma SameEverywhere(s: Store, t: Store)
    requires forall k :: Same(s, t, k)
    ensures s == t
  {
    forall k ensures k in s <==> k in t {
      assert Same(s, t, k);
    }
    forall k | k in s ensures s[k] == t[k] {
      assert Same(s, t, k);
    }
  }

  /** A key no item is for is at most deleted, and only if the account held it. */
  lemma UnwantedUntouched(job: Job, cs: seq<Config>, es: seq<Event>, i: nat, k: Key)
    requires IsRun(job, cs, es) && i < |cs| && k !in Targets(job)
    ensures k in cs[i].store ==> k in cs[0].store && cs[i].store[k] == cs[0].store[k]
    ensures k in cs[0].store && k !in cs[i].store ==> k in Held(job, cs[0].store)
  {
    FatesAlways(job, cs, es, i);
    Frame(job, cs, es, i);
    if k in cs[0].store && k in cs[i].store && cs[i].store[k] != cs[0].store[k] {
      PatchedIsTarget(job, cs[0].store, cs[i].store, k);
    }
  }

  lemma UnwantedAtEnd(job: Job, cs: seq<Config>, es: seq<Event>, k: Key)
    requires SucceededRun(job, cs, es) && OneNamespacePerName(job, cs[0].store)
    requires k !in Targets(job)
    ensures k in cs[|es|].store <==> k in cs[0].store && k !in Held(job, cs[0].store)
    ensures k in cs[|es|].store ==> cs[|es|].store[k] == cs[0].store[k]
  {
    var s0, s := cs[0].store, cs[|es|].store;
    UnwantedUntouched(job, cs, es, |es|, k);
    if k in s && k in Held(job, s0) {
      LeftBehind(job, cs, es, k);
      assert false;
    }
  }

  lemma SuccessIsGoal(job: Job, cs: seq<Config>, es: seq<Event>)
    requires SucceededRun(job, cs, es) && Ready(job, cs[0].store)
    ensures cs[|es|].store == Goal(job, cs[0].store)
  {
    var s0, s := cs[0].store, cs[|es|].store;
    var g := Goal(job, s0);
    ReadyMeansConsistent(job, s0);
    forall k ensures Same(s, g, k) {
      if k in Targets(job) {
        var w := WantFor(job, k);
        var j :| 0 <= j < |job.wants| && job.wants[j] == w;
        assert InPlace(job, s0, j);
        SettledAtEnd(job, cs, es, j);
      } else {
        UnwantedAtEnd(job, cs, es, k);
      }
    }
    SameEverywhere(s, g);
  }

  /** A fault-free run from a ready store succeeds, and ends in the goal. */
  lemma ReachesGoal(job: Job, cs: seq<Config>, es: seq<Event>)
    requires CompleteRun(job, cs, es) && AllClean(es) && Ready(job, cs[0].store)
    ensures cs[|es|].proc.err == Succeeded
    ensures cs[|es|].store == Goal(job, cs[0].store)
  {
    ReadyMeansConsistent(job, cs[0].store);
    SuccessWhenAgreed(job, cs, es);
    SuccessIsGoal(job, cs, es);
  }

  /** A wanted key is created as asked, updated once, or as it was. */
  lemma WantedFate(job: Job, cs: seq<Config>, es: seq<Event>, i: nat, w: Want)
    requires IsRun(job, cs, es) && i < |cs| && DistinctSlots(job)
    requires w in job.wants && w.Supported()
    ensures var k, s0, s := job.KeyFor(w), cs[0].store, cs[i].store;
            && (k in s0 ==> k in s && (s[k] == s0[k] || s[k] == job.Patch(w, s0[k])))
            && (k in s && k !in s0 ==> s[k] == job.Ideal(w))
  {
    var k, s0, s := job.KeyFor(w), cs[0].store, cs[i].store;
    UniqueWant(job, w);
    FatesAlways(job, cs, es, i);
    if k in s && k !in s0 {
      MadeIsTarget(job, s, k);
      var v :| v in job.wants && v.Supported() && job.KeyFor(v) == k && s[k] == job.Ideal(v);
      UniqueWant(job, v);
    }
    if k in s0 && s[k] != s0[k] {
      PatchedIsTarget(job, s0, s, k);
      var v :| v in job.wants && v.Supported() && job.KeyFor(v) == k && s[k] == job.Patch(v, s0[k]);
      UniqueWant(job, v);
    }
  }

  /** Among the keys held and the keys wanted, the slot determines the key. */
  lemma SlotsTellApart(job: Job, s0: Store, h: Key, k: Key)
    requires DistinctSlots(job) && NamesInPlace(job, s0)
    requires h in Held(job, s0) + Targets(job) && k in Held(job, s0) + Targets(job)
    requires SlotOf(h) == SlotOf(k)
    ensures h == k
  {
    if h in Targets(job) && k in Targets(job) {
      var v, w := WantFor(job, h), WantFor(job, k);
      var i :| 0 <= i < |job.wants| && job.wants[i] == v;
      var j :| 0 <= j < |job.wants| && job.wants[j] == w;
    }
    if h in Targets(job) && k in Held(job, s0) {
      assert Aligned(job, s0, WantFor(job, h));
    }
    if k in Targets(job) && h in Held(job, s0) {
      assert Aligned(job, s0, WantFor(job, k));
    }
  }

  lemma ReadyKept(job: Job, cs: seq<Config>, es: seq<Event>, i: nat)
    requires IsRun(job, cs, es) && i < |cs| && Ready(job, cs[0].store)
    ensures Ready(job, cs[i].store)
  {
    var s0, s := cs[0].store, cs[i].store;
    Sandwich(job, cs, es, i);
    forall k | k in Targets(job) && k in s ensures k in Held(job, s) {
      var w := WantFor(job, k);
      WantedFate(job, cs, es, i, w);
      PatchMeaning(job, w, s[k]);
      if k in s0 {
        assert k in Held(job, s0);
      }
    }
    forall h, k | h in Held(job, s) && k in Held(job, s) && SlotOf(h) == SlotOf(k) ensures h == k {
      SlotsTellApart(job, s0, h, k);
    }
    forall w | w in job.wants && w.Supported() ensures Aligned(job, s, w) {
      forall k | k in Held(job, s) && SlotOf(k) == job.SlotFor(w) ensures k == job.KeyFor(w) {
        UniqueWant(job, w);
        SlotsTellApart(job, s0, job.KeyFor(w), k);
      }
    }
  }

  /** However far a run got and whatever faults it met, the store is still ready and the goal is
      still the same. */
  lemma GoalKept(job: Job, cs: seq<Config>, es: seq<Event>, i: nat)
    requires IsRun(job, cs, es) && i < |cs| && Ready(job, cs[0].store)
    ensures Ready(job, cs[i].store) && Goal(job, cs[i].store) == Goal(job, cs[0].store)
  {
    ReadyKept(job, cs, es, i);
    var s0, s := cs[0].store, cs[i].store;
    var g0, g := Goal(job, s0), Goal(job, s);
    forall k ensures Same(g, g0, k) {
      if k in Targets(job) {
        var w := WantFor(job, k);
        WantedFate(job, cs, es, i, w);
        PatchMeaning(job, w, job.Ideal(w));
        if k in s0 {
          PatchMeaning(job, w, job.Patch(w, s0[k]));
        }
      } else {
        UnwantedUntouched(job, cs, es, i, k);
      }
    }
    SameEverywhere(g, g0);
  }

  /** Some run of the job, complete or cut, leads from one store to the other. */
  ghost predicate Attempt(job: Job, a: Store, b: Store) {
    exists cs: seq<Config>, es: seq<Event> :: IsRun(job, cs, es) && cs[0].store == a && cs[|es|].store == b
  }

  lemma {:induction false} GoalKeptByAttempts(job: Job, stores: seq<Store>, n: nat)
    requires n < |stores| && Ready(job, stores[0])
    requires forall i | 0 <= i < |stores| - 1 :: Attempt(job, stores[i], stores[i + 1])
    ensures Ready(job, stores[n]) && Goal(job, stores[n]) == Goal(job, stores[0])
  {
    if n > 0 {
      GoalKeptByAttempts(job, stores, n - 1);
      assert Attempt(job, stores[n - 1], stores[n]);
      var cs: seq<Config>, es: seq<Event> :|
        IsRun(job, cs, es) && cs[0].store == stores[n - 1] && cs[|es|].store == stores[n];
      GoalKept(job, cs, es, |es|);
    }
  }

  /** After any number of runs cut anywhere, one fault-free run ends where a single uncut run would
      have. */
  lemma RetryConfluence(job: Job, stores: seq<Store>, cs: seq<Config>, es: seq<Event>,
                        ds: seq<Config>, fs: seq<Event>)
    requires |stores| > 0 && Ready(job, stores[0])
    requires forall i | 0 <= i < |stores| - 1 :: Attempt(job, stores[i], stores[i + 1])
    requires CompleteRun(job, cs, es) && AllClean(es) && cs[0].store == stores[|stores| - 1]
    requires CompleteRun(job, ds, fs) && AllClean(fs) && ds[0].store == stores[0]
    ensures cs[|es|].proc.err == Succeeded && ds[|fs|].proc.err == Succeeded
    ensures cs[|es|].store == ds[|fs|].store
  {
    GoalKeptByAttempts(job, stores, |stores| - 1);
    ReachesGoal(job, cs, es);
    ReachesGoal(job, ds, fs);
  }

  lemma {:induction false} TwoOccurrences(a: seq<Want>, w: Want)
    requires multiset(a)[w] >= 2
    ensures exists i, j :: 0 <= i < j < |a| && a[i] == w && a[j] == w
  {
    var n := |a| - 1;
    assert a == a[..n] + [a[n]];
    if a[n] == w {
      assert w in multiset(a[..n]);
      var i :| 0 <= i < n && a[..n][i] == w;
      assert a[i] == w;
    } else {
      TwoOccurrences(a[..n], w);
      var i, j :| 0 <= i < j < n && a[..n][i] == w && a[..n][j] == w;
      assert a[i] == w && a[j] == w;
    }
  }

  lemma DuplicateCount(b: seq<Want>, i: nat, j: nat)
    requires i < j < |b| && b[i] == b[j]
    ensures multiset(b)[b[i]] >= 2
  {
    assert b == b[..j] + b[j..];
    assert b[i] in b[..j] && b[j] in b[j..];
  }

  lemma DistinctSlotsReordered(job: Job, job': Job)
    requires job'.user == job.user && job'.home == job.home
    requires multiset(job'.wants) == multiset(job.wants)
    requires DistinctSlots(job)
    ensures DistinctSlots(job')
  {
    var a, b := job.wants, job'.wants;
    forall i, j | 0 <= i < j < |b| && b[i].Supported() && b[j].Supported()
      ensures job'.SlotFor(b[i]) != job'.SlotFor(b[j])
    {
      if b[i] == b[j] {
        DuplicateCount(b, i, j);
        TwoOccurrences(a, b[i]);
      } else {
        assert b[i] in multiset(a) && b[j] in multiset(a);
        var x :| 0 <= x < |a| && a[x] == b[i];
        var y :| 0 <= y < |a| && a[y] == b[j];
      }
    }
  }

  lemma SameWantsReady(job: Job, job': Job, s: Store)
    requires job'.user == job.user && job'.home == job.home
    requires forall w :: w in job.wants <==> w in job'.wants
    requires Ready(job, s) && DistinctSlots(job')
    ensures Ready(job', s) && Held(job', s) == Held(job, s) && Targets(job') == Targets(job)
  {
    forall w | w in job'.wants && w.Supported() ensures Aligned(job', s, w) {
      assert Aligned(job, s, w);
    }
  }

  lemma SameWantsSameGoal(job: Job, job': Job, s: Store)
    requires job'.user == job.user && job'.home == job.home
    requires forall w :: w in job.wants <==> w in job'.wants
    requires DistinctSlots(job) && DistinctSlots(job')
    requires Held(job', s) == Held(job, s) && Targets(job') == Targets(job)
    ensures Goal(job', s) == Goal(job, s)
  {
    forall k | k in Targets(job) ensures WantFor(job', k) == WantFor(job, k) {
      UniqueWant(job', WantFor(job, k));
    }
    forall k | k in Goal(job, s) ensures GoalAt(job', s, k) == GoalAt(job, s, k) {
    }
  }

  /** Neither the order of the items, nor of the listings, nor of the deletions matters. */
  lemma OrderIndependence(job: Job, cs: seq<Config>, es: seq<Event>, job': Job, ds: seq<Config>, fs: seq<Event>)
    requires job'.user == job.user && job'.home == job.home
    requires multiset(job'.wants) == multiset(job.wants)
    requires CompleteRun(job, cs, es) && AllClean(es) && Ready(job, cs[0].store)
    requires CompleteRun(job', ds, fs) && AllClean(fs) && ds[0].store == cs[0].store
    ensures cs[|es|].proc == ds[|fs|].proc == Finished(Succeeded)
    ensures cs[|es|].store == ds[|fs|].store
  {
    DistinctSlotsReordered(job, job');
    forall w ensures w in job.wants <==> w in job'.wants {
      assert w in multiset(job.wants) <==> w in multiset(job'.wants);
    }
    SameWantsReady(job, job', cs[0].store);
    SameWantsSameGoal(job, job', cs[0].store);
    ReachesGoal(job, cs, es);
    ReachesGoal(job', ds, fs);
  }

  /** In particular the order of the LdapGroupBindings, and of the items within each, is irrelevant. */
  lemma BindingOrderIrrelevant(user: string, home: string,
                               a: seq<LdapGroupBinding>, b: seq<LdapGroupBinding>, c: seq<LdapGroupBinding>,
                               cs: seq<Config>, es: seq<Event>, ds: seq<Config>, fs: seq<Event>)
    requires multiset(a) == multiset(b)
    requires |b| == |c|
    requires forall i | 0 <= i < |b| :: b[i].name == c[i].name && multiset(b[i].items) == multiset(c[i].items)
    requires var job := Job(user, home, WantsOf(a));
             CompleteRun(job, cs, es) && AllClean(es) && Ready(job, cs[0].store)
    requires CompleteRun(Job(user, home, WantsOf(c)), ds, fs) && AllClean(fs) && ds[0].store == cs[0].store
    ensures cs[|es|].proc == ds[|fs|].proc == Finished(Succeeded)
    ensures cs[|es|].store == ds[|fs|].store
  {
    ReorderBindings(a, b);
    ReorderItems(b, c);
    OrderIndependence(Job(user, home, WantsOf(a)), cs, es, Job(user, home, WantsOf(c)), ds, fs);
  }

  /** With no colon in LdapGroupBinding names, items get distinct names exactly when no two of a kind
      agree in LdapGroupBinding and role. */
  lemma DistinctSlotsMeaning(job: Job)
    requires GroupsColonFree(job)
    ensures DistinctSlots(job) <==>
              forall i, j | 0 <= i < j < |job.wants| && job.wants[i].Supported() && job.wants[j].Supported() ::
                var v, w := job.wants[i], job.wants[j];
                v.item.kind != w.item.kind || v.group != w.group || v.item.name != w.item.name
  {
    forall i, j | 0 <= i < j < |job.wants| && job.wants[i].Supported() && job.wants[j].Supported()
      ensures var v, w := job.wants[i], job.wants[j];
              job.SlotFor(v) == job.SlotFor(w)
              <==> v.item.kind == w.item.kind && v.group == w.group && v.item.name == w.item.name
    {
      var v, w := job.wants[i], job.wants[j];
      assert v in job.wants && w in job.wants;
      if job.NameFor(v) == job.NameFor(w) {
        SameAccountCollision(job.user, v.item.name, v.group, w.item.name, w.group);
        SplitAtColon(v.group, v.item.name, w.group, w.item.name);
      }
    }
  }

  /** Two successful runs in a row: no two items can be for one name, since the second run would
      have had to create what the first one had created. */
  lemma SecondSuccessNeedsDistinctNames(job: Job, cs: seq<Config>, es: seq<Event>, ds: seq<Config>, fs: seq<Event>)
    requires SucceededRun(job, cs, es)
    requires SucceededRun(job, ds, fs) && ds[0].store == cs[|es|].store
    ensures DistinctSlots(job)
  {
    forall i, j | 0 <= i < j < |job.wants| && job.wants[i].Supported() && job.wants[j].Supported()
      ensures job.SlotFor(job.wants[i]) != job.SlotFor(job.wants[j])
    {
      if !FirstInSlot(job, j) {
        SettledAtEnd(job, cs, es, j);
        SettledAtEnd(job, ds, fs, j);
      }
    }
  }

  lemma DistinctAndConsistentIsReady(job: Job, s: Store)
    requires DistinctSlots(job) && NoForeign(job, s) && OneNamespacePerName(job, s)
    ensures Ready(job, s)
  {
    forall w | w in job.wants && w.Supported() ensures Aligned(job, s, w) {
      var j :| 0 <= j < |job.wants| && job.wants[j] == w;
      assert InPlace(job, s, j);
      assert FirstInSlot(job, j);
    }
    forall h, k | h in Held(job, s) && k in Held(job, s) && SlotOf(h) == SlotOf(k) ensures h == k {
      if Asked(job, |job.wants|, SlotOf(k)) {
        var j :| 0 <= j < |job.wants| && job.wants[j].Supported() && job.SlotFor(job.wants[j]) == SlotOf(k);
        assert Aligned(job, s, job.wants[j]);
      }
    }
  }

  /** So, where a first run succeeded and left the RoleBindings right, a fault-free second one
      succeeds if and only if the items have distinct names. */
  lemma SecondRunAfterExact(job: Job, cs: seq<Config>, es: seq<Event>, ds: seq<Config>, fs: seq<Event>)
    requires SucceededRun(job, cs, es) && RoleExact(job, cs[|es|].store)
    requires CompleteRun(job, ds, fs) && AllClean(fs) && ds[0].store == cs[|es|].store
    ensures ds[|fs|].proc.err == Succeeded <==> DistinctSlots(job)
  {
    if ds[|fs|].proc.err == Succeeded {
      SecondSuccessNeedsDistinctNames(job, cs, es, ds, fs);
    }
    if DistinctSlots(job) {
      RoleConvergence(job, cs, es);
      SuccessNeeds(job, cs, es);
      DistinctAndConsistentIsReady(job, cs[0].store);
      GoalKept(job, cs, es, |es|);
      ReachesGoal(job, ds, fs);
    }
  }
}
