/** What a run can do to objects the account does not hold. */
module Foreign {
  import opened Rbac
  import opened Reconciler
  import opened SoloRun
  import opened Convergence
  import opened Outcomes
  import opened CleanRuns
  import opened Choices

  /** Item `j` would update the object at `k`, on account of a differing copy held at `h`. */
  predicate Overwrites(job: Job, s0: Store, k: Key, j: nat, h: Key)
    requires j < |job.wants| && k in s0
  {
    var w := job.wants[j];
    && Finds(job, s0, j) && job.KeyFor(w) == k && h in Copies(job, s0, job.SlotFor(w))
    && !job.Matches(w, s0[h]) && !job.Matches(w, s0[k])
  }

  predicate Overwritable(job: Job, s0: Store, k: Key)
    requires k in s0
  {
    exists j, h | 0 <= j < |job.wants| && h in Held(job, s0) :: Overwrites(job, s0, k, j, h)
  }

  /** And some run gets to that item. */
  predicate Exposed(job: Job, s0: Store, k: Key)
    requires k in s0
  {
    exists j, h | 0 <= j < |job.wants| && h in Held(job, s0) ::
      Overwrites(job, s0, k, j, h) && Reachable(job, s0, j)
  }

  /** One of the first `d` items updates the object at `k`, given the index listed. */
  predicate OverwrittenBy(job: Job, s0: Store, ix0: Index, k: Key, d: nat)
    requires d <= |job.wants| && k in s0
  {
    exists j | 0 <= j < d ::
      NeedsUpdate(job, ix0, j) && job.KeyFor(job.wants[j]) == k && !job.Matches(job.wants[j], s0[k])
  }

  lemma UpdatesOnce(job: Job, ix0: Index, i: nat, j: nat)
    requires i < |job.wants| && j < |job.wants| && NeedsUpdate(job, ix0, i) && NeedsUpdate(job, ix0, j)
    requires job.KeyFor(job.wants[i]) == job.KeyFor(job.wants[j])
    ensures i == j
  {
  }

  lemma ForeignAfter(job: Job, s0: Store, ix0: Index, d: nat, k: Key)
    requires Possible(job, s0, ix0) && d <= |job.wants| && k in s0 && k !in Held(job, s0)
    ensures !Same(s0, StoreAfter(job, s0, ix0, d), k) <==> OverwrittenBy(job, s0, ix0, k, d)
    ensures k !in Gone(Rest(job, ix0, |job.wants|), map[])
  {
    hide NeedsUpdate, StoreAfter;
    if j :| 0 <= j < d && NeedsUpdate(job, ix0, j) && job.KeyFor(job.wants[j]) == k {
      AfterUpdate(job, s0, ix0, d, j);
      PatchMeaning(job, job.wants[j], s0[k]);
      forall i | 0 <= i < d && NeedsUpdate(job, ix0, i) && job.KeyFor(job.wants[i]) == k ensures i == j {
        UpdatesOnce(job, ix0, i, j);
      }
    } else {
      AfterElse(job, s0, ix0, d, k);
    }
  }

  lemma OverwriterExposes(job: Job, s0: Store, ix0: Index, k: Key, d: nat)
    requires Possible(job, s0, ix0) && k in s0 && 0 < d <= |job.wants|
    requires OverwrittenBy(job, s0, ix0, k, d) && PassTo(job, s0, ix0, d - 1)
    ensures Exposed(job, s0, k)
  {
    hide Possible, Reachable, Passes;
    var j :| 0 <= j < d && NeedsUpdate(job, ix0, j)
      && job.KeyFor(job.wants[j]) == k && !job.Matches(job.wants[j], s0[k]);
    SlotsOfPossible(job, s0, ix0, job.SlotFor(job.wants[j]));
    PassToBetween(job, s0, ix0, j);
    assert Overwrites(job, s0, k, j, ix0[job.SlotFor(job.wants[j])].key);
  }

  lemma ForeignStopped(job: Job, s0: Store, ix0: Index, s: Store, k: Key)
    requires Possible(job, s0, ix0) && Stopped(job, s0, ix0, s) && k in s0 && k !in Held(job, s0)
    requires !Same(s0, s, k)
    ensures Exposed(job, s0, k)
  {
    hide Possible, NeedsUpdate, StoreAfter, Rest, Exposed, Passes;
    var n := |job.wants|;
    var d := n;
    if c :| 0 <= c <= n && StoppedAt(job, s0, ix0, s, c) {
      d := c;
    } else {
      var ix: Index :| IsTrimmed(job, s0, ix0, s, ix);
      assert Gone(Rest(job, ix0, n), ix) <= Gone(Rest(job, ix0, n), map[]);
    }
    ForeignAfter(job, s0, ix0, d, k);
    OverwriterExposes(job, s0, ix0, k, d);
  }

  /** At no point of any run, whatever its faults, is an object the account does not hold changed,
      unless it is exposed. */
  lemma ForeignKept(job: Job, cs: seq<Config>, es: seq<Event>, i: nat, k: Key)
    requires IsRun(job, cs, es) && i < |cs|
    requires k in cs[0].store && k !in Held(job, cs[0].store)
    ensures !Same(cs[0].store, cs[i].store, k) ==> Exposed(job, cs[0].store, k)
  {
    var s0, s := cs[0].store, cs[i].store;
    Trajectory(job, cs, es, i);
    if !Same(s0, s, k) {
      hide Possible, Stopped, Exposed;
      var ix0 :| Possible(job, s0, ix0) && Stopped(job, s0, ix0, s);
      ForeignStopped(job, s0, ix0, s, k);
    }
  }

  lemma ExposedIsReached(job: Job, s0: Store, ix0: Index, d: nat, k: Key)
    requires Possible(job, s0, ix0) && OneCopy(job, s0) && k in s0 && Exposed(job, s0, k)
    requires d <= |job.wants| && (d < |job.wants| ==> !Passes(job, s0, ix0, d))
    ensures OverwrittenBy(job, s0, ix0, k, d)
  {
    hide Reachable, Free;
    var j, h :| 0 <= j < |job.wants| && h in Held(job, s0) && Overwrites(job, s0, k, j, h) && Reachable(job, s0, j);
    assert Asked(job, |job.wants|, job.SlotFor(job.wants[j]));
    SlotsOfPossible(job, s0, ix0, job.SlotFor(job.wants[j]));
    assert NeedsUpdate(job, ix0, j);
    PassToBetween(job, s0, ix0, j);
    assert Passes(job, s0, ix0, j);
    assert j < d;
  }

  /** After a complete fault-free run, successful or not, such an object has changed if and only if
      an item the run passed updates it; where wanted names are held in one namespace each, if and
      only if it was exposed. */
  lemma ForeignAfterRun(job: Job, cs: seq<Config>, es: seq<Event>, k: Key) returns (ix0: Index, d: nat)
    requires CompleteRun(job, cs, es) && AllClean(es) && k in cs[0].store && k !in Held(job, cs[0].store)
    ensures ListedAs(cs, ix0) && Possible(job, cs[0].store, ix0)
    ensures d <= |job.wants| && PassTo(job, cs[0].store, ix0, d)
    ensures d < |job.wants| ==> !Passes(job, cs[0].store, ix0, d)
    ensures !Same(cs[0].store, cs[|es|].store, k) <==> OverwrittenBy(job, cs[0].store, ix0, k, d)
    ensures OneCopy(job, cs[0].store) ==> (!Same(cs[0].store, cs[|es|].store, k) <==> Exposed(job, cs[0].store, k))
  {
    hide Possible, Passes, StoreAfter, Exposed, OneCopy, OverwrittenBy;
    var s0 := cs[0].store;
    ix0, d := CleanEnd(job, cs, es);
    ForeignAfter(job, s0, ix0, d, k);
    ForeignKept(job, cs, es, |es|, k);
    if OneCopy(job, s0) && Exposed(job, s0, k) {
      ExposedIsReached(job, s0, ix0, d, k);
    }
  }

  lemma PassedUpTo(job: Job, s0: Store, ix0: Index, d: nat, d1: nat)
    requires d <= |job.wants| && d1 <= |job.wants|
    requires PassTo(job, s0, ix0, d) && (d1 < |job.wants| ==> !Passes(job, s0, ix0, d1))
    ensures d <= d1
  {
  }

  /** A fault-free run that gets past item `j`, having updated the object at `k`. */
  lemma RunOverwriting(job: Job, s0: Store, k: Key, j: nat, h: Key, d: nat)
    returns (cs: seq<Config>, es: seq<Event>)
    requires k in s0 && k !in Held(job, s0) && j < d <= |job.wants|
    requires Overwrites(job, s0, k, j, h) && Reachable(job, s0, d)
    ensures CleanRunFrom(job, s0, cs, es) && !Same(s0, cs[|es|].store, k)
    ensures d == |job.wants| ==> cs[|es|].proc.err == Succeeded
  {
    hide Possible, PassTo, FittingCopies, OneCopy, Trimmed, Exposed;
    var sl := job.SlotFor(job.wants[j]);
    var preferred := FittingCopies(job, s0) - Copies(job, s0, sl) + {h};
    assert Copies(job, s0, sl) * preferred == {h};
    forall i | 0 <= i < d && Finds(job, s0, i)
      ensures Fits(job, s0, i, Choose(Copies(job, s0, job.SlotFor(job.wants[i])), preferred))
    {
      if i != j {
        assert job.SlotFor(job.wants[i]) != sl;
        assert Passable(job, s0, i);
        FittingFits(job, s0, preferred, i);
      }
    }
    var ix0 := IndexWith(job, s0, preferred);
    PassWhenSuited(job, s0, ix0, d);
    cs, es := RunWith(job, s0, preferred);
    var ix1, d1 := ForeignAfterRun(job, cs, es, k);
    assert NeedsUpdate(job, ix0, j);
    PassedUpTo(job, s0, ix0, d, d1);
  }

  ghost predicate MayChange(job: Job, s0: Store, k: Key) {
    exists cs: seq<Config>, es: seq<Event> ::
      IsRun(job, cs, es) && cs[0].store == s0 && !Same(s0, cs[|es|].store, k)
  }

  lemma OverwriterPasses(job: Job, s0: Store, k: Key, j: nat, h: Key)
    requires k in s0 && j < |job.wants| && Overwrites(job, s0, k, j, h) && Reachable(job, s0, j)
    ensures Reachable(job, s0, j + 1)
  {
    assert Fits(job, s0, j, h);
  }

  /** And then it takes no fault. */
  lemma ExposingRun(job: Job, s0: Store, k: Key) returns (cs: seq<Config>, es: seq<Event>)
    requires k in s0 && k !in Held(job, s0) && Exposed(job, s0, k)
    ensures CleanRunFrom(job, s0, cs, es) && !Same(s0, cs[|es|].store, k)
  {
    hide Fits, Free;
    var j, h :| 0 <= j < |job.wants| && h in Held(job, s0) && Overwrites(job, s0, k, j, h) && Reachable(job, s0, j);
    OverwriterPasses(job, s0, k, j, h);
    cs, es := RunOverwriting(job, s0, k, j, h, j + 1);
  }

  /** Some run, with any faults and cut anywhere, changes an object the account does not hold if and
      only if the object is exposed. */
  lemma ForeignChange(job: Job, s0: Store, k: Key)
    requires k in s0 && k !in Held(job, s0)
    ensures MayChange(job, s0, k) <==> Exposed(job, s0, k)
  {
    if MayChange(job, s0, k) {
      var cs: seq<Config>, es: seq<Event> :| IsRun(job, cs, es) && cs[0].store == s0 && !Same(s0, cs[|es|].store, k);
      ForeignKept(job, cs, es, |es|, k);
    }
    if Exposed(job, s0, k) {
      var cs, es := ExposingRun(job, s0, k);
    }
  }

  ghost predicate MayOverwrite(job: Job, s0: Store, k: Key) {
    exists cs: seq<Config>, es: seq<Event> ::
      CleanRunFrom(job, s0, cs, es) && cs[|es|].proc.err == Succeeded && !Same(s0, cs[|es|].store, k)
  }

  /** Some run changes it and reports success if and only if, besides, success is possible. */
  lemma ForeignOverwrite(job: Job, s0: Store, k: Key)
    requires k in s0 && k !in Held(job, s0)
    ensures MayOverwrite(job, s0, k) <==> CanSucceed(job, s0) && Exposed(job, s0, k)
    ensures CanSucceed(job, s0) ==> (Exposed(job, s0, k) <==> Overwritable(job, s0, k))
  {
    if MayOverwrite(job, s0, k) {
      var cs: seq<Config>, es: seq<Event> :|
        CleanRunFrom(job, s0, cs, es) && cs[|es|].proc.err == Succeeded && !Same(s0, cs[|es|].store, k);
      SuccessPossible(job, s0);
      ForeignKept(job, cs, es, |es|, k);
    }
    if CanSucceed(job, s0) && Overwritable(job, s0, k) {
      hide Passable;
      var j, h :| 0 <= j < |job.wants| && h in Held(job, s0) && Overwrites(job, s0, k, j, h);
      assert Reachable(job, s0, j);
      var cs, es := RunOverwriting(job, s0, k, j, h, |job.wants|);
    }
  }

  /** For instance a single item and a single copy of its name, held in another namespace: a
      fault-free run reports success, has overwritten the foreign object and left the copy behind. */
  lemma ForeignLost(job: Job, w: Want, a: Key, b: Binding, f: Binding) returns (cs: seq<Config>, es: seq<Event>)
    requires job.wants == [w] && w.item.kind == ROLE && w.Supported()
    requires a.Namespaced? && a.name == job.NameFor(w) && a.ns != w.item.ns
    requires job.Owns(b) && !job.Matches(w, b) && !job.Owns(f) && !job.Matches(w, f)
    ensures CleanRunFrom(job, map[a := b, job.KeyFor(w) := f], cs, es) && cs[|es|].proc.err == Succeeded
    ensures cs[|es|].store == map[a := b, job.KeyFor(w) := job.Patch(w, f)]
  {
    var k := job.KeyFor(w);
    var s0: Store := map[a := b, k := f];
    assert Held(job, s0) == {a} && Copies(job, s0, SlotOf(k)) == {a};
    assert job.wants[0] == w && FirstInSlot(job, 0) && Finds(job, s0, 0);
    assert Fits(job, s0, 0, a);
    SuccessPossible(job, s0);
    cs, es :| CleanRunFrom(job, s0, cs, es) && cs[|es|].proc.err == Succeeded;
    var ix0 := EndState(job, cs, es);
    SlotsOfPossible(job, s0, ix0, SlotOf(k));
    assert NeedsUpdate(job, ix0, 0);
    assert Rest(job, ix0, 1) == map[];
    assert StoreAfter(job, s0, ix0, 0) == s0;
    assert StoreAfter(job, s0, ix0, 1) == s0[k := job.Patch(w, f)];
    assert Gone(map[], map[]) == {};
  }

  /** The same with a second item whose key is taken: no run can succeed, and the object is
      overwritten all the same. */
  lemma ForeignLostInFailure(job: Job, v: Want, u: Want, a: Key, b: Binding, f: Binding, g: Binding)
    requires job.wants == [v, u] && v.item.kind == ROLE && v.Supported() && u.item.kind == CLUSTER_ROLE
    requires a.Namespaced? && a.name == job.NameFor(v) && a.ns != v.item.ns
    requires job.Owns(b) && !job.Matches(v, b) && !job.Owns(f) && !job.Matches(v, f) && !job.Owns(g)
    ensures var s0: Store := map[a := b, job.KeyFor(v) := f, job.KeyFor(u) := g];
            MayChange(job, s0, job.KeyFor(v)) && !MaySucceed(job, s0)
  {
    var k := job.KeyFor(v);
    var s0: Store := map[a := b, k := f, job.KeyFor(u) := g];
    assert a in Copies(job, s0, SlotOf(k));
    assert Finds(job, s0, 0) && Overwrites(job, s0, k, 0, a);
    assert Exposed(job, s0, k) by {
      assert Reachable(job, s0, 0);
    }
    ForeignChange(job, s0, k);
    assert Copies(job, s0, job.SlotFor(u)) == {};
    assert NeedsCreate(job, s0, 1) && !Passable(job, s0, 1);
    SuccessPossible(job, s0);
  }
}
