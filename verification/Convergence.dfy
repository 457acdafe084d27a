/** What a run that reports success has achieved, and when a fault-free run succeeds. */
module Convergence {
  import opened Rbac
  import opened Reconciler
  import opened SoloRun
  import opened Safety

  ghost predicate SucceededRun(job: Job, cs: seq<Config>, es: seq<Event>) {
    IsRun(job, cs, es) && cs[|es|].proc == Finished(Succeeded)
  }

  ghost predicate CompleteRun(job: Job, cs: seq<Config>, es: seq<Event>) {
    IsRun(job, cs, es) && cs[|es|].proc.Finished?
  }

  /** The account's ClusterRoleBindings are the ones asked for, each naming the role asked for. */
  predicate ClusterExact(job: Job, s: Store) {
    && (forall k | k in Held(job, s) && k.Cluster? :: k in Targets(job))
    && (forall w | w in job.wants && w.item.kind == CLUSTER_ROLE ::
          job.KeyFor(w) in Held(job, s) && s[job.KeyFor(w)].roleRef.name == w.item.name)
  }

  /** The account's RoleBindings are the ones asked for, with exactly the contents asked for. */
  predicate RoleExact(job: Job, s: Store) {
    && (forall k | k in Held(job, s) && k.Namespaced? :: k in Targets(job))
    && (forall w | w in job.wants && w.Supported() && w.item.kind == ROLE ::
          job.KeyFor(w) in s && s[job.KeyFor(w)] == job.Ideal(w))
  }

  predicate NamespacesAgree(job: Job, s0: Store) {
    forall j | 0 <= j < |job.wants| && job.wants[j].Supported() :: InPlace(job, s0, j)
  }

  /** Each RoleBinding name is held in one namespace: any one if the name is no longer wanted, else
      the namespace of the first item that wants it. */
  predicate OneNamespacePerName(job: Job, s0: Store) {
    && NamespacesAgree(job, s0)
    && (forall h, k | h in Held(job, s0) && k in Held(job, s0) && SlotOf(h) == SlotOf(k) ::
          h == k || Asked(job, |job.wants|, SlotOf(k)))
  }

  lemma ClusterInPlace(job: Job, s0: Store, j: nat)
    requires j < |job.wants| && job.wants[j].item.kind == CLUSTER_ROLE
    ensures InPlace(job, s0, j)
  {
    forall k | k in Held(job, s0) && SlotOf(k) == job.SlotFor(job.wants[j])
      ensures k == job.KeyFor(job.wants[j])
    {
      assert k.Cluster?;
    }
  }

  lemma Leftovers(job: Job, s0: Store, s1: Store, ix: Index)
    requires Ensured(job, s0, s1, ix, |job.wants|)
    ensures forall sl | sl in ix :: ix[sl].key in Gone(ix, map[]) && ix[sl].key !in Targets(job)
  {
    LeftoversUnwanted(job, s0, ix);
  }

  /** The end of a successful run, in terms of the end of its ensure phase. */
  lemma EndOfRun(job: Job, cs: seq<Config>, es: seq<Event>) returns (s1: Store, ix: Index)
    requires SucceededRun(job, cs, es)
    ensures Ensured(job, cs[0].store, s1, ix, |job.wants|)
    ensures cs[|es|].store == s1 - Gone(ix, map[])
    ensures forall sl | sl in ix :: ix[sl].key in Gone(ix, map[]) && ix[sl].key !in Targets(job)
  {
    hide Ensured;
    Always(job, cs, es, |es|);
    s1, ix :| PrunedFrom(job, cs[0].store, s1, ix, cs[|es|].store, map[]);
    Leftovers(job, cs[0].store, s1, ix);
  }

  /** Items in place have their bindings after a successful run. */
  lemma SettledAtEnd(job: Job, cs: seq<Config>, es: seq<Event>, j: nat)
    requires SucceededRun(job, cs, es)
    requires j < |job.wants| && job.wants[j].Supported() && InPlace(job, cs[0].store, j)
    ensures Settled(job, cs[0].store, cs[|es|].store, j)
    ensures job.KeyFor(job.wants[j]) in Held(job, cs[|es|].store)
    ensures job.Matches(job.wants[j], cs[|es|].store[job.KeyFor(job.wants[j])])
  {
    var s0, s := cs[0].store, cs[|es|].store;
    var s1, ix := EndOfRun(job, cs, es);
    var w := job.wants[j];
    var k := job.KeyFor(w);
    assert k in Targets(job);
    assert Settled(job, s0, s1, j);
    assert k !in Gone(ix, map[]);
    PatchMeaning(job, w, s[k]);
    if k in s0 {
      PatchMeaning(job, w, s0[k]);
    }
  }

  lemma FirstFor(job: Job, d: nat, sl: Slot) returns (j: nat)
    requires d <= |job.wants| && Asked(job, d, sl)
    ensures j < d && job.wants[j].Supported() && job.SlotFor(job.wants[j]) == sl && FirstInSlot(job, j)
  {
    j :| 0 <= j < d && job.wants[j].Supported() && job.SlotFor(job.wants[j]) == sl;
    if !FirstInSlot(job, j) {
      j := FirstFor(job, j, sl);
    }
  }

  /** A binding still held but not wanted shares its name with another one held at the start. */
  lemma LeftBehind(job: Job, cs: seq<Config>, es: seq<Event>, k: Key)
    requires SucceededRun(job, cs, es)
    requires k in Held(job, cs[|es|].store) && k !in Targets(job)
    ensures k in Held(job, cs[0].store) && k.Namespaced?
    ensures !OneNamespacePerName(job, cs[0].store)
  {
    var s0, s := cs[0].store, cs[|es|].store;
    var s1, ix := EndOfRun(job, cs, es);
    Sandwich(job, cs, es, |es|);
    if Asked(job, |job.wants|, SlotOf(k)) {
      var j := FirstFor(job, |job.wants|, SlotOf(k));
      assert k != job.KeyFor(job.wants[j]);
      assert !InPlace(job, s0, j);
      if job.wants[j].item.kind == CLUSTER_ROLE {
        ClusterInPlace(job, s0, j);
      }
    } else {
      var h := ix[SlotOf(k)].key;
      assert h in Held(job, s0) && h != k && SlotOf(h) == SlotOf(k);
    }
  }

  /** Success alone means the ClusterRoleBindings have converged, whatever the store was. */
  lemma ClusterConvergence(job: Job, cs: seq<Config>, es: seq<Event>)
    requires SucceededRun(job, cs, es)
    ensures ClusterExact(job, cs[|es|].store)
  {
    var s := cs[|es|].store;
    forall k | k in Held(job, s) && k.Cluster? ensures k in Targets(job) {
      if k !in Targets(job) {
        LeftBehind(job, cs, es, k);
      }
    }
    forall w | w in job.wants && w.item.kind == CLUSTER_ROLE
      ensures job.KeyFor(w) in Held(job, s) && s[job.KeyFor(w)].roleRef.name == w.item.name
    {
      var j :| 0 <= j < |job.wants| && job.wants[j] == w;
      ClusterInPlace(job, cs[0].store, j);
      SettledAtEnd(job, cs, es, j);
    }
  }

  /** Updates leave everything but the role name alone, so a ClusterRoleBinding is exactly as asked
      for if and only if it was created now or already had the rest right. */
  lemma ClusterContents(job: Job, cs: seq<Config>, es: seq<Event>, w: Want)
    requires SucceededRun(job, cs, es) && w in job.wants && w.item.kind == CLUSTER_ROLE
    ensures var k := job.KeyFor(w);
            k in cs[|es|].store
            && (cs[|es|].store[k] == job.Ideal(w)
                <==> (k in Held(job, cs[0].store) ==>
                        && cs[0].store[k].subjects == [job.Me()]
                        && cs[0].store[k].roleRef.apiGroup == RBAC_API_GROUP
                        && cs[0].store[k].roleRef.kind == CLUSTER_ROLE))
  {
    var j :| 0 <= j < |job.wants| && job.wants[j] == w;
    ClusterInPlace(job, cs[0].store, j);
    SettledAtEnd(job, cs, es, j);
  }

  lemma RolesConverge(job: Job, cs: seq<Config>, es: seq<Event>)
    requires SucceededRun(job, cs, es) && OneNamespacePerName(job, cs[0].store)
    ensures RoleExact(job, cs[|es|].store)
  {
    var s := cs[|es|].store;
    forall k | k in Held(job, s) ensures k in Targets(job) {
      if k !in Targets(job) {
        LeftBehind(job, cs, es, k);
      }
    }
    forall w | w in job.wants && w.Supported() && w.item.kind == ROLE
      ensures job.KeyFor(w) in s && s[job.KeyFor(w)] == job.Ideal(w)
    {
      var j :| 0 <= j < |job.wants| && job.wants[j] == w;
      assert InPlace(job, cs[0].store, j);
      SettledAtEnd(job, cs, es, j);
    }
  }

  /** A held binding whose slot is wanted, or is not the one indexed, survives a successful run. */
  lemma Survives(job: Job, cs: seq<Config>, es: seq<Event>, s1: Store, ix: Index, k: Key)
    requires SucceededRun(job, cs, es)
    requires Ensured(job, cs[0].store, s1, ix, |job.wants|)
    requires cs[|es|].store == s1 - Gone(ix, map[])
    requires k in Held(job, cs[0].store)
    requires Asked(job, |job.wants|, SlotOf(k)) || (SlotOf(k) in ix && ix[SlotOf(k)].key != k)
    ensures k in Held(job, cs[|es|].store)
  {
    var s0, s := cs[0].store, cs[|es|].store;
    assert k !in Gone(ix, map[]);
    assert k in s1;
    if s1[k] != s0[k] {
      PatchedIsTarget(job, s0, s1, k);
    }
  }

  lemma UnaskedNotTarget(job: Job, k: Key)
    requires !Asked(job, |job.wants|, SlotOf(k))
    ensures k !in Targets(job)
  {
    forall w | w in job.wants && w.Supported() ensures job.KeyFor(w) != k {
      var j :| 0 <= j < |job.wants| && job.wants[j] == w;
    }
  }

  /** A key held at the start but not by the first item of its name is no item's: the create for it
      would have failed. */
  lemma LaterItemsElsewhere(job: Job, cs: seq<Config>, es: seq<Event>, j: nat, k: Key)
    requires SucceededRun(job, cs, es)
    requires j < |job.wants| && job.wants[j].Supported() && FirstInSlot(job, j)
    requires k in Held(job, cs[0].store) && SlotOf(k) == job.SlotFor(job.wants[j]) && k != job.KeyFor(job.wants[j])
    ensures k !in Targets(job)
  {
    forall w | w in job.wants && w.Supported() ensures job.KeyFor(w) != k {
      var i :| 0 <= i < |job.wants| && job.wants[i] == w;
      if i > j && job.SlotFor(w) == SlotOf(k) {
        assert !FirstInSlot(job, i);
        SettledAtEnd(job, cs, es, i);
      }
    }
  }

  lemma RolesMissed(job: Job, cs: seq<Config>, es: seq<Event>)
    requires SucceededRun(job, cs, es) && !OneNamespacePerName(job, cs[0].store)
    ensures !RoleExact(job, cs[|es|].store)
  {
    var s0, s := cs[0].store, cs[|es|].store;
    var n := |job.wants|;
    var s1, ix := EndOfRun(job, cs, es);
    if NamespacesAgree(job, s0) {
      var h, k :| h in Held(job, s0) && k in Held(job, s0) && SlotOf(h) == SlotOf(k)
        && h != k && !Asked(job, n, SlotOf(k));
      var left := if ix[SlotOf(k)].key == k then h else k;
      Survives(job, cs, es, s1, ix, left);
      UnaskedNotTarget(job, left);
    } else {
      var j :| 0 <= j < n && job.wants[j].Supported() && !InPlace(job, s0, j);
      var k :| k in Held(job, s0) && SlotOf(k) == job.SlotFor(job.wants[j]) && k != job.KeyFor(job.wants[j]);
      Survives(job, cs, es, s1, ix, k);
      LaterItemsElsewhere(job, cs, es, j, k);
    }
  }

  /** A successful run leaves the RoleBindings exactly right if and only if, before it, no name was
      held in two namespaces or in another one than its first item asks for. */
  lemma RoleConvergence(job: Job, cs: seq<Config>, es: seq<Event>)
    requires SucceededRun(job, cs, es)
    ensures RoleExact(job, cs[|es|].store) <==> OneNamespacePerName(job, cs[0].store)
  {
    if OneNamespacePerName(job, cs[0].store) {
      RolesConverge(job, cs, es);
    } else {
      RolesMissed(job, cs, es);
    }
  }

  predicate DistinctKeys(job: Job) {
    forall i, j | 0 <= i < j < |job.wants| && job.wants[i].Supported() && job.wants[j].Supported() ::
      job.KeyFor(job.wants[i]) != job.KeyFor(job.wants[j])
  }

  /** No wanted key is taken by an object the account does not hold. */
  predicate NoForeign(job: Job, s: Store) {
    forall k | k in Targets(job) && k in s :: k in Held(job, s)
  }

  lemma SuccessNeeds(job: Job, cs: seq<Config>, es: seq<Event>)
    requires SucceededRun(job, cs, es) && NamespacesAgree(job, cs[0].store)
    ensures DistinctKeys(job) && NoForeign(job, cs[0].store)
  {
    var s0 := cs[0].store;
    var s1, ix := EndOfRun(job, cs, es);
    forall k | k in Targets(job) && k in s0 ensures k in Held(job, s0) {
      var w :| w in job.wants && w.Supported() && job.KeyFor(w) == k;
      var j :| 0 <= j < |job.wants| && job.wants[j] == w;
      assert InPlace(job, s0, j);
      SettledAtEnd(job, cs, es, j);
    }
    forall i, j | 0 <= i < j < |job.wants| && job.wants[i].Supported() && job.wants[j].Supported()
      ensures job.KeyFor(job.wants[i]) != job.KeyFor(job.wants[j])
    {
      assert InPlace(job, s0, i);
    }
  }

  /** With distinct, unforeign keys the create for an item not in the index finds its key free. */
  lemma CreateFree(job: Job, s0: Store, s: Store, ix: Index, d: nat)
    requires Ensured(job, s0, s, ix, d) && d < |job.wants| && job.wants[d].Supported()
    requires NamespacesAgree(job, s0) && DistinctKeys(job) && NoForeign(job, s0)
    requires job.SlotFor(job.wants[d]) !in ix
    ensures job.KeyFor(job.wants[d]) !in s
  {
    var k := job.KeyFor(job.wants[d]);
    if Asked(job, d, SlotOf(k)) {
      var j := FirstFor(job, d, SlotOf(k));
      assert InPlace(job, s0, j);
      assert job.KeyFor(job.wants[j]) != k;
    }
    assert k !in Held(job, s0);
    assert k in Targets(job);
    assert !Made(job, s, k, d);
  }

  lemma PendingInPlace(job: Job, s0: Store, s: Store, ix: Index, d: nat)
    requires Ensured(job, s0, s, ix, d) && d < |job.wants| && job.wants[d].Supported()
    requires NamespacesAgree(job, s0)
    requires job.SlotFor(job.wants[d]) in ix
    ensures job.KeyFor(job.wants[d]) in s && ix[job.SlotFor(job.wants[d])].key == job.KeyFor(job.wants[d])
  {
    Pending(job, s0, s, ix, d);
    assert InPlace(job, s0, d);
  }

  lemma CleanStepSucceeds(job: Job, s0: Store, c: Config, e: Event, c': Config)
    requires Invariant(job, s0, c.store, c.proc) && Step(job, c, e, c') && e.Clean()
    requires NamespacesAgree(job, s0) && DistinctKeys(job) && NoForeign(job, s0)
    ensures c'.proc.Finished? ==> c'.proc.err == Succeeded
  {
    hide Ensured, NamespacesAgree, DistinctKeys, NoForeign, Pruned;
    match c.proc
    case Ensure(ix, d) =>
      if e.Called? {
        if job.SlotFor(job.wants[d]) in ix {
          PendingInPlace(job, s0, c.store, ix, d);
        } else {
          CreateFree(job, s0, c.store, ix, d);
        }
      }
    case Prune(ix) =>
      if e.Called? {
        PruneOneMore(job, s0, c.store, ix, e.call.key);
      }
    case _ =>
  }

  /** Where names held agree with the namespaces their items ask for, a fault-free run succeeds if
      and only if the wanted keys are pairwise distinct and none is taken by an object the account
      does not hold.  Module Outcomes has the condition for all other stores. */
  lemma SuccessWhenAgreed(job: Job, cs: seq<Config>, es: seq<Event>)
    requires CompleteRun(job, cs, es) && AllClean(es)
    requires NamespacesAgree(job, cs[0].store)
    ensures cs[|es|].proc.err == Succeeded <==> DistinctKeys(job) && NoForeign(job, cs[0].store)
  {
    var s0 := cs[0].store;
    if cs[|es|].proc.err == Succeeded {
      SuccessNeeds(job, cs, es);
    } else if DistinctKeys(job) && NoForeign(job, s0) {
      var i := |es| - 1;
      assert Step(job, cs[i], es[i], cs[i + 1]);
      Always(job, cs, es, i);
      assert es[i] in es;
      CleanStepSucceeds(job, s0, cs[i], es[i], cs[i + 1]);
    }
  }

  /** Jobs that grant ClusterRoles only need no assumption about namespaces. */
  lemma ClusterOnlySuccess(job: Job, cs: seq<Config>, es: seq<Event>)
    requires CompleteRun(job, cs, es) && AllClean(es)
    requires forall w | w in job.wants :: w.item.kind != ROLE
    ensures cs[|es|].proc.err == Succeeded <==> DistinctKeys(job) && NoForeign(job, cs[0].store)
  {
    forall j | 0 <= j < |job.wants| && job.wants[j].Supported() ensures InPlace(job, cs[0].store, j) {
      ClusterInPlace(job, cs[0].store, j);
    }
    SuccessWhenAgreed(job, cs, es);
  }
}
