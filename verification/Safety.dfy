/** What holds of a run at every point, wherever a fault or a crash cuts it. */
module Safety {
  import opened Names
  import opened Rbac
  import opened Reconciler
  import opened SoloRun

  lemma FatesReflexive(job: Job, s: Store)
    ensures Fates(job, s, s)
  {
  }

  lemma FatesAlways(job: Job, cs: seq<Config>, es: seq<Event>, i: nat)
    requires IsRun(job, cs, es) && i < |cs|
    ensures Fates(job, cs[0].store, cs[i].store)
  {
    hide Fates, Ensured, Pruned;
    var s0, s, p := cs[0].store, cs[i].store, cs[i].proc;
    Always(job, cs, es, i);
    match p
    case ListCluster => FatesReflexive(job, s0);
    case ListNamespaced(_) => FatesReflexive(job, s0);
    case Ensure(ix, d) => FatesFromEnsured(job, s0, s, ix, d);
    case Write(ix, d, _) => FatesFromEnsured(job, s0, s, ix, d);
    case Prune(ix) => FatesFromPruned(job, s0, s, ix);
    case Finished(Succeeded) => FatesFromPruned(job, s0, s, map[]);
    case Finished(InternalError(_)) =>
  }

  lemma MadeIsTarget(job: Job, s: Store, k: Key)
    requires Made(job, s, k, |job.wants|)
    ensures exists w :: w in job.wants && w.Supported() && job.KeyFor(w) == k && k in s && s[k] == job.Ideal(w)
    ensures k in Targets(job) && k in Held(job, s)
  {
    var j :| 0 <= j < |job.wants| && MadeFor(job, s, k, j);
    var w := job.wants[j];
    PatchMeaning(job, w, s[k]);
    assert w in job.wants && w.Supported() && job.KeyFor(w) == k;
  }

  lemma PatchedIsTarget(job: Job, s0: Store, s: Store, k: Key)
    requires Patched(job, s0, s, k, |job.wants|)
    ensures k in s0 && k in s
    ensures exists w :: w in job.wants && w.Supported() && job.KeyFor(w) == k && s[k] == job.Patch(w, s0[k])
    ensures k in Targets(job)
    ensures k in Held(job, s0) ==> k in Held(job, s)
    ensures exists h :: h in Held(job, s0) && SlotOf(h) == SlotOf(k)
    ensures k.Cluster? ==> k in Held(job, s0)
  {
    var j :| 0 <= j < |job.wants| && PatchedFor(job, s0, s, k, j);
    var w := job.wants[j];
    PatchMeaning(job, w, s0[k]);
    assert w in job.wants && w.Supported() && job.KeyFor(w) == k;
    var h :| h in Held(job, s0) && SlotOf(h) == SlotOf(k);
    assert k.Cluster? ==> h == k;
  }

  /** A run touches only what the account holds and what it asks for: no ClusterRoleBinding of
      anyone else's ever changes, new objects are exactly as asked for, and a RoleBinding the
      account does not hold can be overwritten only where the account holds the same name in
      another namespace. */
  lemma Frame(job: Job, cs: seq<Config>, es: seq<Event>, i: nat)
    requires IsRun(job, cs, es) && i < |cs|
    ensures forall k | k !in Held(job, cs[0].store) && k !in Targets(job) :: Same(cs[0].store, cs[i].store, k)
    ensures forall k | k in cs[0].store && k.Cluster? && k !in Held(job, cs[0].store) ::
              Same(cs[0].store, cs[i].store, k)
    ensures forall k | k in cs[i].store && k !in cs[0].store ::
              exists w :: w in job.wants && w.Supported() && job.KeyFor(w) == k && cs[i].store[k] == job.Ideal(w)
    ensures forall k | k in cs[0].store && k !in Held(job, cs[0].store) && !Same(cs[0].store, cs[i].store, k) ::
              k in Targets(job)
              && exists h :: h in Held(job, cs[0].store) && SlotOf(h) == SlotOf(k) && h != k
  {
    var s0, s := cs[0].store, cs[i].store;
    FatesAlways(job, cs, es, i);
    forall k | k in s && k !in s0
      ensures k in Targets(job)
      ensures exists w :: w in job.wants && w.Supported() && job.KeyFor(w) == k && s[k] == job.Ideal(w)
    {
      MadeIsTarget(job, s, k);
    }
    forall k | k in s0 && k in s && s[k] != s0[k]
      ensures k in Targets(job) && (k.Cluster? ==> k in Held(job, s0))
      ensures exists h :: h in Held(job, s0) && SlotOf(h) == SlotOf(k)
    {
      PatchedIsTarget(job, s0, s, k);
    }
  }

  lemma {:induction false} KeysStayWithoutDelete(job: Job, cs: seq<Config>, es: seq<Event>, i: nat)
    requires IsRun(job, cs, es) && i < |cs|
    requires forall e | e in es[..i] :: e.Called? ==> !e.call.Delete?
    ensures cs[0].store.Keys <= cs[i].store.Keys
  {
    if i > 0 {
      assert es[..i] == es[..i - 1] + [es[i - 1]];
      KeysStayWithoutDelete(job, cs, es, i - 1);
      assert Step(job, cs[i - 1], es[i - 1], cs[i]);
    }
  }

  /** Crash safety: at every point the account holds all that it held and is still wanted, and
      nothing beyond what it held or what is wanted; before the first deletion it has lost nothing. */
  lemma Sandwich(job: Job, cs: seq<Config>, es: seq<Event>, i: nat)
    requires IsRun(job, cs, es) && i < |cs|
    ensures Held(job, cs[0].store) * Targets(job) <= Held(job, cs[i].store)
    ensures Held(job, cs[i].store) <= Held(job, cs[0].store) + Targets(job)
    ensures (forall e | e in es[..i] :: e.Called? ==> !e.call.Delete?) ==>
              Held(job, cs[0].store) <= Held(job, cs[i].store)
  {
    var s0, s := cs[0].store, cs[i].store;
    FatesAlways(job, cs, es, i);
    forall k | k in s && k !in s0 ensures k in Targets(job) {
      MadeIsTarget(job, s, k);
    }
    forall k | k in s0 && k in s && s[k] != s0[k]
      ensures k in Targets(job) && (k in Held(job, s0) ==> k in Held(job, s))
    {
      PatchedIsTarget(job, s0, s, k);
    }
    if forall e | e in es[..i] :: e.Called? ==> !e.call.Delete? {
      KeysStayWithoutDelete(job, cs, es, i);
    }
  }

  /** ClusterRoleBindings the account holds, with the role each grants. */
  function Grants(job: Job, s: Store): set<(Key, string)> {
    set k | k in Held(job, s) && k.Cluster? :: (k, s[k].roleRef.name)
  }

  function WantedGrants(job: Job): set<(Key, string)> {
    set w | w in job.wants && w.item.kind == CLUSTER_ROLE :: (job.KeyFor(w), w.item.name)
  }

  predicate GroupsColonFree(job: Job) {
    forall w | w in job.wants :: ColonFree(w.group)
  }

  /** Two items for one key ask for the same role. */
  lemma KeyFixesRole(job: Job, v: Want, w: Want)
    requires GroupsColonFree(job) && v in job.wants && w in job.wants
    requires job.KeyFor(v) == job.KeyFor(w)
    ensures v.item.name == w.item.name && v.group == w.group
  {
    SameAccountCollision(job.user, v.item.name, v.group, w.item.name, w.group);
    SplitAtColon(v.group, v.item.name, w.group, w.item.name);
  }

  /** The same sandwich for the roles granted through ClusterRoleBindings. */
  lemma GrantSandwich(job: Job, cs: seq<Config>, es: seq<Event>, i: nat)
    requires IsRun(job, cs, es) && i < |cs|
    ensures Grants(job, cs[i].store) <= Grants(job, cs[0].store) + WantedGrants(job)
    ensures GroupsColonFree(job) ==>
              Grants(job, cs[0].store) * WantedGrants(job) <= Grants(job, cs[i].store)
  {
    var s0, s := cs[0].store, cs[i].store;
    FatesAlways(job, cs, es, i);
    Sandwich(job, cs, es, i);
    forall g | g in Grants(job, s) ensures g in Grants(job, s0) + WantedGrants(job) {
      var k :| k in Held(job, s) && k.Cluster? && g == (k, s[k].roleRef.name);
      if k !in s0 {
        MadeIsTarget(job, s, k);
        var w :| w in job.wants && w.Supported() && job.KeyFor(w) == k && s[k] == job.Ideal(w);
        assert (job.KeyFor(w), w.item.name) == g;
      } else if s[k] != s0[k] {
        PatchedIsTarget(job, s0, s, k);
        var w :| w in job.wants && w.Supported() && job.KeyFor(w) == k && s[k] == job.Patch(w, s0[k]);
        assert (job.KeyFor(w), w.item.name) == g;
      } else {
        assert k in Held(job, s0);
      }
    }
    if GroupsColonFree(job) {
      forall g | g in Grants(job, s0) * WantedGrants(job) ensures g in Grants(job, s) {
        var k :| k in Held(job, s0) && k.Cluster? && g == (k, s0[k].roleRef.name);
        var v :| v in job.wants && v.item.kind == CLUSTER_ROLE && g == (job.KeyFor(v), v.item.name);
        assert k in Targets(job);
        assert k in Held(job, s);
        if s[k] != s0[k] {
          PatchedIsTarget(job, s0, s, k);
          var w :| w in job.wants && w.Supported() && job.KeyFor(w) == k && s[k] == job.Patch(w, s0[k]);
          KeyFixesRole(job, v, w);
        }
      }
    }
  }
}
