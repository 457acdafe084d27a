/** How many writes a fault-free run makes, and that a second one makes none. */
module Writes {
  import opened Rbac
  import opened Api
  import opened Reconciler
  import opened SoloRun
  import opened Convergence
  import opened Goals

  datatype Kind = Creates | Updates | Deletes

  predicate OfKind(e: Event, kind: Kind) {
    e.Called? && match kind
    case Creates => e.call.Create?
    case Updates => e.call.Update?
    case Deletes => e.call.Delete?
  }

  function Tally(es: seq<Event>, kind: Kind): nat {
    if es == [] then 0
    else Tally(es[..|es| - 1], kind) + if OfKind(es[|es| - 1], kind) then 1 else 0
  }

  function Changed(s0: Store, s: Store): set<Key> {
    set k | k in s0 && k in s && s[k] != s0[k]
  }

  /** Wanted bindings that exist with other contents than wanted. */
  function Drifted(job: Job, s: Store): set<Key> {
    set w | w in job.wants && w.Supported() && job.KeyFor(w) in s && !job.Matches(w, s[job.KeyFor(w)]) :: job.KeyFor(w)
  }

  /** The writes made so far are what the two stores differ by. */
  predicate Accounted(job: Job, s0: Store, s: Store, es: seq<Event>) {
    && Tally(es, Creates) == |Held(job, s) - Held(job, s0)|
    && Tally(es, Updates) == |Changed(s0, s)|
    && Tally(es, Deletes) == |Held(job, s0) - Held(job, s)|
  }

  lemma TallyOneMore(es: seq<Event>, e: Event)
    ensures forall kind :: Tally(es + [e], kind) == Tally(es, kind) + if OfKind(e, kind) then 1 else 0
  {
    assert (es + [e])[..|es|] == es;
  }

  lemma OneMore(a: set<Key>, b: set<Key>, k: Key)
    requires k !in a && k !in b
    ensures |a + {k} - b| == |a - b| + 1 && b - (a + {k}) == b - a
  {
    assert a + {k} - b == (a - b) + {k};
  }

  lemma ChangedAfterPut(s0: Store, s: Store, k: Key, b: Binding)
    ensures k !in s0 ==> Changed(s0, s[k := b]) == Changed(s0, s)
    ensures k in s0 && k in s && s[k] == s0[k] != b ==>
              Changed(s0, s[k := b]) == Changed(s0, s) + {k} && k !in Changed(s0, s)
  {
  }

  lemma ChangedAfterDelete(s0: Store, s: Store, k: Key)
    requires k in s0 && k in s && s[k] == s0[k]
    ensures Changed(s0, s - {k}) == Changed(s0, s)
  {
  }

  lemma NotHeld(job: Job, s: Store, k: Key)
    requires k !in s
    ensures k !in Held(job, s)
  {
  }

  lemma CountCreate(job: Job, s0: Store, s: Store, e: Event, es: seq<Event>)
    requires e.Called? && e.call.Create? && e.call.key !in s && e.call.key !in s0 && job.Owns(e.call.obj)
    requires Accounted(job, s0, s, es)
    ensures Accounted(job, s0, s[e.call.key := e.call.obj], es + [e])
  {
    var k, s' := e.call.key, s[e.call.key := e.call.obj];
    NotHeld(job, s, k);
    NotHeld(job, s0, k);
    hide Held, Tally, Changed;
    TallyOneMore(es, e);
    HeldAfterPut(job, s, k, e.call.obj);
    ChangedAfterPut(s0, s, k, e.call.obj);
    OneMore(Held(job, s), Held(job, s0), k);
  }

  lemma OneLess(a: set<Key>, b: set<Key>, k: Key)
    requires k in a && k in b
    ensures |b - (a - {k})| == |b - a| + 1 && a - {k} - b == a - b
  {
    assert b - (a - {k}) == (b - a) + {k};
  }

  lemma CountUpdate(job: Job, s0: Store, s: Store, e: Event, es: seq<Event>)
    requires e.Called? && e.call.Update? && e.call.key in s && e.call.key in s0 && s[e.call.key] == s0[e.call.key]
    requires job.Owns(s[e.call.key]) && job.Owns(e.call.obj) && e.call.obj != s[e.call.key]
    requires Accounted(job, s0, s, es)
    ensures Accounted(job, s0, s[e.call.key := e.call.obj], es + [e])
  {
    var k, s' := e.call.key, s[e.call.key := e.call.obj];
    assert k in Held(job, s);
    hide Held, Tally, Changed;
    TallyOneMore(es, e);
    HeldAfterPut(job, s, k, e.call.obj);
    assert Held(job, s') == Held(job, s);
    ChangedAfterPut(s0, s, k, e.call.obj);
  }

  lemma CountDelete(job: Job, s0: Store, s: Store, e: Event, es: seq<Event>)
    requires e.Called? && e.call.Delete? && e.call.key in s && e.call.key in s0 && s[e.call.key] == s0[e.call.key]
    requires job.Owns(s[e.call.key])
    requires Accounted(job, s0, s, es)
    ensures Accounted(job, s0, s - {e.call.key}, es + [e])
  {
    var k, s' := e.call.key, s - {e.call.key};
    assert Held(job, s') == Held(job, s) - {k};
    assert k in Held(job, s) && k in Held(job, s0);
    ChangedAfterDelete(s0, s, k);
    hide Held, Tally, Changed;
    TallyOneMore(es, e);
    OneLess(Held(job, s), Held(job, s0), k);
  }

  lemma EnsuredKeepsKeys(job: Job, s0: Store, s: Store, ix: Index, d: nat)
    requires Ensured(job, s0, s, ix, d)
    ensures s0.Keys <= s.Keys
  {
  }

  lemma CreateAccounted(job: Job, s0: Store, c: Config, e: Event, c': Config, es: seq<Event>)
    requires Invariant(job, s0, c.store, c.proc) && Step(job, c, e, c') && e.Clean()
    requires c.proc.Ensure? && e.Called? && e.call.Create? && (c'.proc.Finished? ==> c'.proc.err == Succeeded)
    requires Accounted(job, s0, c.store, es)
    ensures Accounted(job, s0, c'.store, es + [e])
  {
    hide Ensured, Accounted;
    PatchMeaning(job, job.wants[c.proc.done], e.call.obj);
    EnsuredKeepsKeys(job, s0, c.store, c.proc.index, c.proc.done);
    CountCreate(job, s0, c.store, e, es);
  }

  lemma UpdateChanges(job: Job, s0: Store, s: Store, ix: Index, d: nat)
    requires Ensured(job, s0, s, ix, d) && d < |job.wants| && job.wants[d].Supported() && Ready(job, s0)
    requires job.SlotFor(job.wants[d]) in ix && !job.Matches(job.wants[d], ix[job.SlotFor(job.wants[d])].obj)
    ensures var w := job.wants[d];
            var k := job.KeyFor(w);
            && k in s && k in s0 && s[k] == s0[k] && job.Owns(s[k])
            && job.Patch(w, s[k]) != s[k] && job.Owns(job.Patch(w, s[k]))
  {
    ReadyMeansConsistent(job, s0);
    PendingInPlace(job, s0, s, ix, d);
    Pending(job, s0, s, ix, d);
    PatchMeaning(job, job.wants[d], s[job.KeyFor(job.wants[d])]);
  }

  lemma UpdateAccounted(job: Job, s0: Store, c: Config, e: Event, c': Config, es: seq<Event>)
    requires Invariant(job, s0, c.store, c.proc) && Step(job, c, e, c') && e.Clean()
    requires c.proc.Write? && Ready(job, s0)
    requires Accounted(job, s0, c.store, es)
    ensures Accounted(job, s0, c'.store, es + [e])
  {
    hide Ensured, Accounted, Ready;
    UpdateChanges(job, s0, c.store, c.proc.index, c.proc.done);
    CountUpdate(job, s0, c.store, e, es);
  }

  lemma LeftoverUntouched(job: Job, s0: Store, s1: Store, ix: Index, k: Key)
    requires Ensured(job, s0, s1, ix, |job.wants|)
    requires SlotOf(k) in ix && ix[SlotOf(k)].key == k
    ensures k in s1 && k in s0 && s1[k] == s0[k] && job.Owns(s0[k])
  {
    assert !Asked(job, |job.wants|, SlotOf(k));
  }

  lemma LeftoverAsBefore(job: Job, s0: Store, s: Store, ix: Index, k: Key)
    requires Pruned(job, s0, s, ix)
    requires SlotOf(k) in ix && ix[SlotOf(k)].key == k
    ensures k in s && k in s0 && s[k] == s0[k] && job.Owns(s[k])
  {
    PruneOneMore(job, s0, s, ix, k);
    var s1: Store, ix1: Index :| PrunedFrom(job, s0, s1, ix1, s, ix);
    LeftoverUntouched(job, s0, s1, ix1, k);
  }

  lemma DeleteAccounted(job: Job, s0: Store, c: Config, e: Event, c': Config, es: seq<Event>)
    requires Invariant(job, s0, c.store, c.proc) && Step(job, c, e, c') && e.Clean()
    requires e.Called? && c.proc.Prune?
    requires Accounted(job, s0, c.store, es)
    ensures Accounted(job, s0, c'.store, es + [e])
  {
    hide Pruned, Accounted;
    LeftoverAsBefore(job, s0, c.store, c.proc.index, e.call.key);
    CountDelete(job, s0, c.store, e, es);
  }

  lemma QuietAccounted(job: Job, s0: Store, c: Config, e: Event, c': Config, es: seq<Event>)
    requires Step(job, c, e, c') && (e.Called? ==> !e.call.Write())
    requires Accounted(job, s0, c.store, es)
    ensures Accounted(job, s0, c'.store, es + [e])
  {
    hide Held, Changed;
    TallyOneMore(es, e);
  }

  lemma StepAccounted(job: Job, s0: Store, c: Config, e: Event, c': Config, es: seq<Event>)
    requires Invariant(job, s0, c.store, c.proc) && Step(job, c, e, c') && e.Clean() && Ready(job, s0)
    requires c'.proc.Finished? ==> c'.proc.err == Succeeded
    requires Accounted(job, s0, c.store, es)
    ensures Accounted(job, s0, c'.store, es + [e])
  {
    hide Accounted, Ready, Invariant, Served;
    if e.Called? && e.call.Create? {
      CreateAccounted(job, s0, c, e, c', es);
    } else if e.Called? && e.call.Update? {
      UpdateAccounted(job, s0, c, e, c', es);
    } else if e.Called? && e.call.Delete? {
      DeleteAccounted(job, s0, c, e, c', es);
    } else {
      QuietAccounted(job, s0, c, e, c', es);
    }
  }

  /** A finished process takes no further step. */
  lemma NotFailedBefore(job: Job, cs: seq<Config>, es: seq<Event>, i: nat)
    requires SucceededRun(job, cs, es) && i <= |es|
    ensures i < |es| ==> !cs[i].proc.Finished?
    ensures cs[i].proc.Finished? ==> cs[i].proc.err == Succeeded
  {
    if i < |es| {
      assert Step(job, cs[i], es[i], cs[i + 1]);
    }
  }

  lemma AccountedAtFirst(job: Job, s: Store)
    ensures Accounted(job, s, s, [])
  {
    assert Held(job, s) - Held(job, s) == {} && Changed(s, s) == {};
  }

  lemma {:induction false} AlwaysAccounted(job: Job, cs: seq<Config>, es: seq<Event>, i: nat)
    requires SucceededRun(job, cs, es) && AllClean(es) && Ready(job, cs[0].store) && i <= |es|
    ensures Accounted(job, cs[0].store, cs[i].store, es[..i])
  {
    var s0 := cs[0].store;
    if i == 0 {
      AccountedAtFirst(job, s0);
    } else {
      hide Accounted, Ready, Invariant, Step, Held, Tally, Changed, Event.Clean;
      AlwaysAccounted(job, cs, es, i - 1);
      var e := es[i - 1];
      assert es[..i] == es[..i - 1] + [e] && e in es;
      assert cs[i - 1 + 1] == cs[i];
      Always(job, cs, es, i - 1);
      NotFailedBefore(job, cs, es, i);
      StepAccounted(job, s0, cs[i - 1], e, cs[i], es[..i - 1]);
    }
  }

  lemma HeldAtGoal(job: Job, cs: seq<Config>, es: seq<Event>)
    requires SucceededRun(job, cs, es) && Ready(job, cs[0].store)
    ensures Held(job, cs[|es|].store) == Targets(job)
  {
    ReadyMeansConsistent(job, cs[0].store);
    forall k | k in Held(job, cs[|es|].store) ensures k in Targets(job) {
      if k !in Targets(job) {
        LeftBehind(job, cs, es, k);
      }
    }
    forall k | k in Targets(job) ensures k in Held(job, cs[|es|].store) {
      var w :| w in job.wants && w.Supported() && job.KeyFor(w) == k;
      var j :| 0 <= j < |job.wants| && job.wants[j] == w;
      assert InPlace(job, cs[0].store, j);
      SettledAtEnd(job, cs, es, j);
    }
  }

  lemma ChangedIsDrifted(job: Job, cs: seq<Config>, es: seq<Event>, k: Key)
    requires SucceededRun(job, cs, es) && Ready(job, cs[0].store)
    ensures k in Changed(cs[0].store, cs[|es|].store) <==> k in Drifted(job, cs[0].store)
  {
    var s0, s := cs[0].store, cs[|es|].store;
    if k in Targets(job) {
      var w := WantFor(job, k);
      UniqueWant(job, w);
      forall v | v in job.wants && v.Supported() && job.KeyFor(v) == k ensures v == w {
        UniqueWant(job, v);
      }
      var j :| 0 <= j < |job.wants| && job.wants[j] == w;
      ReadyMeansConsistent(job, s0);
      assert InPlace(job, s0, j);
      SettledAtEnd(job, cs, es, j);
      if k in s0 {
        PatchMeaning(job, w, s0[k]);
      }
    } else {
      UnwantedUntouched(job, cs, es, |es|, k);
    }
  }

  /** A fault-free run from a ready store creates what is wanted and missing, deletes what is held
      and not wanted, and updates what differs: once each, and nothing else. */
  lemma MinimalWrites(job: Job, cs: seq<Config>, es: seq<Event>)
    requires CompleteRun(job, cs, es) && AllClean(es) && Ready(job, cs[0].store)
    ensures Tally(es, Creates) == |Targets(job) - Held(job, cs[0].store)|
    ensures Tally(es, Updates) == |Drifted(job, cs[0].store)|
    ensures Tally(es, Deletes) == |Held(job, cs[0].store) - Targets(job)|
  {
    var s0, s := cs[0].store, cs[|es|].store;
    ReachesGoal(job, cs, es);
    AlwaysAccounted(job, cs, es, |es|);
    assert es[..|es|] == es;
    HeldAtGoal(job, cs, es);
    forall k ensures k in Changed(s0, s) <==> k in Drifted(job, s0) {
      ChangedIsDrifted(job, cs, es, k);
    }
    assert Changed(s0, s) == Drifted(job, s0);
  }

  lemma NoneOfKind(es: seq<Event>, kind: Kind)
    requires Tally(es, kind) == 0
    ensures forall e | e in es :: !OfKind(e, kind)
  {
    if es != [] {
      NoneOfKind(es[..|es| - 1], kind);
      assert es == es[..|es| - 1] + [es[|es| - 1]];
    }
  }

  lemma NothingDrifts(job: Job, cs: seq<Config>, es: seq<Event>)
    requires SucceededRun(job, cs, es) && Ready(job, cs[0].store)
    ensures Drifted(job, cs[|es|].store) == {}
  {
    ReadyMeansConsistent(job, cs[0].store);
    forall w | w in job.wants && w.Supported() && job.KeyFor(w) in cs[|es|].store
      ensures job.Matches(w, cs[|es|].store[job.KeyFor(w)])
    {
      var j :| 0 <= j < |job.wants| && job.wants[j] == w;
      assert InPlace(job, cs[0].store, j);
      SettledAtEnd(job, cs, es, j);
    }
  }

  /** Idempotence: a fault-free run right after a fault-free run succeeds without writing. */
  lemma SecondRunWritesNothing(job: Job, cs: seq<Config>, es: seq<Event>, ds: seq<Config>, fs: seq<Event>)
    requires CompleteRun(job, cs, es) && AllClean(es) && Ready(job, cs[0].store)
    requires CompleteRun(job, ds, fs) && AllClean(fs) && ds[0].store == cs[|es|].store
    ensures ds[|fs|] == cs[|es|]
    ensures forall e | e in fs :: e.Called? ==> !e.call.Write()
  {
    var s := cs[|es|].store;
    ReachesGoal(job, cs, es);
    GoalKept(job, cs, es, |es|);
    ReachesGoal(job, ds, fs);
    HeldAtGoal(job, cs, es);
    MinimalWrites(job, ds, fs);
    NothingDrifts(job, cs, es);
    NoneOfKind(fs, Creates);
    NoneOfKind(fs, Updates);
    NoneOfKind(fs, Deletes);
    forall e | e in fs && e.Called? ensures !e.call.Write() {
      assert !OfKind(e, Creates) && !OfKind(e, Updates) && !OfKind(e, Deletes);
    }
  }
}
