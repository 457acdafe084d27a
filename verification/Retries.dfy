/** What runs do to the prospects of later runs. */
module Retries {
  import opened Rbac
  import opened Reconciler
  import opened SoloRun
  import opened Convergence
  import opened Goals
  import opened Outcomes
  import opened CleanRuns
  import opened Choices

  /** The first item no fault-free run gets past. */
  lemma FirstImpassable(job: Job, s0: Store, d: nat) returns (j: nat)
    requires d <= |job.wants| && !Reachable(job, s0, d)
    ensures j < d && Reachable(job, s0, j) && !Passable(job, s0, j)
  {
    hide Passable;
    if Reachable(job, s0, d - 1) {
      j := d - 1;
    } else {
      j := FirstImpassable(job, s0, d - 1);
    }
  }

  lemma ImpassableAddsNothing(job: Job, s0: Store, ix0: Index, j: nat)
    requires Possible(job, s0, ix0) && j < |job.wants| && !Passes(job, s0, ix0, j)
    ensures StoreAfter(job, s0, ix0, j + 1) == StoreAfter(job, s0, ix0, j)
  {
    hide Possible;
    AfterKeys(job, s0, ix0, j, job.KeyFor(job.wants[j]));
    if NeedsUpdate(job, ix0, j) {
      UpdatesDoNotCreate(job, s0, ix0, j);
    }
  }

  /** Before the first item of a name nothing has happened to that name. */
  lemma FirstStillImpassable(job: Job, s0: Store, ix0: Index, d: nat, j: nat)
    requires Possible(job, s0, ix0) && d <= j < |job.wants| && FirstInSlot(job, j)
    requires !Passable(job, s0, j)
    ensures !Passable(job, StoreAfter(job, s0, ix0, d), j)
  {
    hide Possible, StoreAfter;
    var s, sl := StoreAfter(job, s0, ix0, d), job.SlotFor(job.wants[j]);
    forall k: Key | SlotOf(k) == sl ensures Same(s0, s, k) {
      AfterUnasked(job, s0, ix0, d, k);
    }
    assert Copies(job, s, sl) == Copies(job, s0, sl);
  }

  /** An item that creates and has not yet done so creates still. */
  lemma StillCreates(job: Job, s0: Store, ix0: Index, d: nat, i: nat)
    requires Possible(job, s0, ix0) && d <= |job.wants| && i < |job.wants| && NeedsCreate(job, s0, i)
    requires job.KeyFor(job.wants[i]) !in StoreAfter(job, s0, ix0, d)
    ensures NeedsCreate(job, StoreAfter(job, s0, ix0, d), i)
  {
    hide Possible, StoreAfter;
    var s, sl := StoreAfter(job, s0, ix0, d), job.SlotFor(job.wants[i]);
    AfterKeys(job, s0, ix0, d, job.KeyFor(job.wants[i]));
    if FirstInSlot(job, i) {
      assert Copies(job, s0, sl) == {};
      SlotsOfPossible(job, s0, ix0, sl);
      forall h: Key | SlotOf(h) == sl ensures h !in Copies(job, s, sl) {
        AfterKeys(job, s0, ix0, d, h);
        assert h !in Copies(job, s0, sl);
        if h in s0 {
          AfterElse(job, s0, ix0, d, h);
        }
      }
    }
  }

  lemma LaterStillImpassable(job: Job, s0: Store, ix0: Index, d: nat, j: nat)
    requires Possible(job, s0, ix0) && d <= j < |job.wants| && !FirstInSlot(job, j)
    requires !Passable(job, s0, j)
    ensures !Passable(job, StoreAfter(job, s0, ix0, d), j)
  {
    hide Possible, StoreAfter, FirstInSlot;
    var s, k := StoreAfter(job, s0, ix0, d), job.KeyFor(job.wants[j]);
    AfterKeys(job, s0, ix0, d, k);
    if k !in s {
      var i :| 0 <= i < j && NeedsCreate(job, s0, i) && job.KeyFor(job.wants[i]) == k;
      StillCreates(job, s0, ix0, d, i);
    }
  }

  lemma StillImpassable(job: Job, s0: Store, ix0: Index, d: nat, j: nat)
    requires Possible(job, s0, ix0) && j < |job.wants| && d <= j + 1 && !Passable(job, s0, j)
    ensures !Passable(job, StoreAfter(job, s0, ix0, d), j)
  {
    hide Possible, StoreAfter, Passable, Passes, FirstInSlot;
    var c := if d == j + 1 then j else d;
    if d == j + 1 {
      PassBetween(job, s0, ix0, j);
      ImpassableAddsNothing(job, s0, ix0, j);
    }
    if FirstInSlot(job, j) {
      FirstStillImpassable(job, s0, ix0, c, j);
    } else {
      LaterStillImpassable(job, s0, ix0, c, j);
    }
  }

  lemma StoppedStillImpassable(job: Job, s0: Store, ix0: Index, s: Store)
    requires Possible(job, s0, ix0) && Stopped(job, s0, ix0, s) && !CanSucceed(job, s0)
    ensures !CanSucceed(job, s)
  {
    hide Possible, StoreAfter, Passable, Passes, IsTrimmed;
    var n := |job.wants|;
    PassToBetween(job, s0, ix0, n);
    var j := FirstImpassable(job, s0, n);
    PassBetween(job, s0, ix0, j);
    var d :| 0 <= d <= n && StoppedAt(job, s0, ix0, s, d);
    StillImpassable(job, s0, ix0, d, j);
  }

  /** A job that cannot succeed never will: no run of it, cut anywhere, changes that. */
  lemma NeverSucceeds(job: Job, cs: seq<Config>, es: seq<Event>, i: nat)
    requires IsRun(job, cs, es) && i < |cs| && !CanSucceed(job, cs[0].store)
    ensures !CanSucceed(job, cs[i].store)
  {
    hide CanSucceed, Possible, Stopped;
    var s0, s := cs[0].store, cs[i].store;
    Trajectory(job, cs, es, i);
    if s != s0 {
      var ix0 :| Possible(job, s0, ix0) && Stopped(job, s0, ix0, s);
      StoppedStillImpassable(job, s0, ix0, s);
    }
  }

  /** With distinct names, what a run can have done to the keys of item `j`'s name. */
  predicate NameFate(job: Job, s0: Store, s: Store, j: nat, k: Key)
    requires j < |job.wants|
  {
    var w := job.wants[j];
    && (k in s0 ==>
          k in s
          && (s[k] != s0[k] ==>
                k == job.KeyFor(w) && s[k] == job.Patch(w, s0[k]) && Copies(job, s0, SlotOf(k)) != {}))
    && (k in s && k !in s0 ==> k == job.KeyFor(w) && s[k] == job.Ideal(w) && Copies(job, s0, SlotOf(k)) == {})
  }

  lemma NameFateAfter(job: Job, s0: Store, ix0: Index, d: nat, j: nat, k: Key)
    requires Possible(job, s0, ix0) && d <= |job.wants| && DistinctSlots(job)
    requires j < |job.wants| && job.wants[j].Supported() && SlotOf(k) == job.SlotFor(job.wants[j])
    ensures NameFate(job, s0, StoreAfter(job, s0, ix0, d), j, k)
  {
    hide Possible, StoreAfter;
    SlotsOfPossible(job, s0, ix0, SlotOf(k));
    AfterKeys(job, s0, ix0, d, k);
    forall i | 0 <= i < |job.wants| && job.wants[i].Supported() && job.KeyFor(job.wants[i]) == k ensures i == j {
      assert job.SlotFor(job.wants[i]) == job.SlotFor(job.wants[j]);
    }
    if k in s0 {
      if i :| 0 <= i < d && NeedsUpdate(job, ix0, i) && job.KeyFor(job.wants[i]) == k {
        AfterUpdate(job, s0, ix0, d, i);
      } else {
        AfterElse(job, s0, ix0, d, k);
      }
    } else if k in StoreAfter(job, s0, ix0, d) {
      assert FirstInSlot(job, j);
      AfterCreate(job, s0, ix0, d, j);
    }
  }

  lemma AskedNotGone(job: Job, s0: Store, ix0: Index, ix: Index, j: nat, k: Key)
    requires Possible(job, s0, ix0)
    requires j < |job.wants| && job.wants[j].Supported() && SlotOf(k) == job.SlotFor(job.wants[j])
    ensures k !in Gone(Rest(job, ix0, |job.wants|), ix)
  {
    RestSound(job, s0, ix0);
    assert Asked(job, |job.wants|, SlotOf(k));
  }

  lemma NameFateStopped(job: Job, s0: Store, ix0: Index, s: Store, j: nat, k: Key)
    requires Possible(job, s0, ix0) && Stopped(job, s0, ix0, s) && DistinctSlots(job)
    requires j < |job.wants| && job.wants[j].Supported() && SlotOf(k) == job.SlotFor(job.wants[j])
    ensures NameFate(job, s0, s, j, k)
  {
    hide Possible, StoreAfter, DistinctSlots, PassTo, Rest;
    var n := |job.wants|;
    if d :| 0 <= d <= n && StoppedAt(job, s0, ix0, s, d) {
      NameFateAfter(job, s0, ix0, d, j, k);
    } else {
      var ix: Index :| IsTrimmed(job, s0, ix0, s, ix);
      NameFateAfter(job, s0, ix0, n, j, k);
      AskedNotGone(job, s0, ix0, ix, j, k);
    }
  }

  lemma NameFateAlways(job: Job, cs: seq<Config>, es: seq<Event>, i: nat, j: nat, k: Key)
    requires IsRun(job, cs, es) && i < |cs| && DistinctSlots(job)
    requires j < |job.wants| && job.wants[j].Supported() && SlotOf(k) == job.SlotFor(job.wants[j])
    ensures NameFate(job, cs[0].store, cs[i].store, j, k)
  {
    hide Possible, Stopped, DistinctSlots;
    var s0, s := cs[0].store, cs[i].store;
    Trajectory(job, cs, es, i);
    if s != s0 {
      var ix0 :| Possible(job, s0, ix0) && Stopped(job, s0, ix0, s);
      NameFateStopped(job, s0, ix0, s, j, k);
    }
  }

  lemma DistinctIsFree(job: Job, s: Store, j: nat)
    requires DistinctSlots(job) && j < |job.wants| && job.wants[j].Supported()
    ensures FirstInSlot(job, j) && (Free(job, s, j) <==> job.KeyFor(job.wants[j]) !in s)
  {
  }

  lemma ItemKept(job: Job, s0: Store, s: Store, j: nat)
    requires DistinctSlots(job) && j < |job.wants| && job.wants[j].Supported()
    requires forall k: Key | SlotOf(k) == job.SlotFor(job.wants[j]) :: NameFate(job, s0, s, j, k)
    ensures Passable(job, s, j) <==> Passable(job, s0, j)
    ensures Unblocked(job, s, j) <==> Unblocked(job, s0, j)
  {
    hide DistinctSlots;
    var w := job.wants[j];
    var n, sl := job.KeyFor(w), job.SlotFor(w);
    DistinctIsFree(job, s0, j);
    DistinctIsFree(job, s, j);
    PatchMeaning(job, w, job.Ideal(w));
    forall h: Key | SlotOf(h) == sl && h != n ensures Same(s0, s, h) {
      assert NameFate(job, s0, s, j, h);
    }
    assert NameFate(job, s0, s, j, n);
    if n in s0 {
      PatchMeaning(job, w, s0[n]);
    }
    forall h | h in Copies(job, s0, sl) ensures h in Copies(job, s, sl) {
    }
    forall h | h in Copies(job, s, sl) && h != n ensures h in Copies(job, s0, sl) {
    }
    if Copies(job, s0, sl) != {} {
      var h :| h in Copies(job, s0, sl);
      assert h in Copies(job, s, sl);
    } else if n in s && n !in s0 {
      assert n in Copies(job, s, sl);
    }
  }

  lemma UnsupportedPasses(job: Job, s: Store, j: nat)
    requires j < |job.wants| && !job.wants[j].Supported()
    ensures Passable(job, s, j) && Unblocked(job, s, j)
  {
  }

  /** With distinct names no run, whatever its faults and wherever it is cut, changes whether a later
      one can succeed, nor whether it must. */
  lemma ProspectsKept(job: Job, cs: seq<Config>, es: seq<Event>, i: nat)
    requires IsRun(job, cs, es) && i < |cs| && DistinctSlots(job)
    ensures CanSucceed(job, cs[i].store) <==> CanSucceed(job, cs[0].store)
    ensures MustSucceed(job, cs[i].store) <==> MustSucceed(job, cs[0].store)
  {
    hide Passable, Unblocked, DistinctSlots, NameFate;
    var s0, s := cs[0].store, cs[i].store;
    forall j | 0 <= j < |job.wants|
      ensures Passable(job, s, j) <==> Passable(job, s0, j)
      ensures Unblocked(job, s, j) <==> Unblocked(job, s0, j)
    {
      if job.wants[j].Supported() {
        forall k: Key | SlotOf(k) == job.SlotFor(job.wants[j]) ensures NameFate(job, s0, s, j, k) {
          NameFateAlways(job, cs, es, i, j, k);
        }
        ItemKept(job, s0, s, j);
      } else {
        UnsupportedPasses(job, s0, j);
        UnsupportedPasses(job, s, j);
      }
    }
  }

  /** So it is after any number of runs, each cut anywhere. */
  lemma {:induction false} ProspectsOutliveAttempts(job: Job, stores: seq<Store>, n: nat)
    requires n < |stores| && DistinctSlots(job)
    requires forall i | 0 <= i < |stores| - 1 :: Attempt(job, stores[i], stores[i + 1])
    ensures CanSucceed(job, stores[n]) <==> CanSucceed(job, stores[0])
    ensures MustSucceed(job, stores[n]) <==> MustSucceed(job, stores[0])
  {
    hide CanSucceed, MustSucceed;
    if n > 0 {
      ProspectsOutliveAttempts(job, stores, n - 1);
      assert Attempt(job, stores[n - 1], stores[n - 1 + 1]);
      var cs: seq<Config>, es: seq<Event> :|
        IsRun(job, cs, es) && cs[0].store == stores[n - 1] && cs[|es|].store == stores[n];
      ProspectsKept(job, cs, es, |es|);
    }
  }

  lemma PassedCanSucceed(job: Job, s0: Store, ix0: Index)
    requires Possible(job, s0, ix0) && PassTo(job, s0, ix0, |job.wants|)
    ensures CanSucceed(job, s0)
  {
    PassToBetween(job, s0, ix0, |job.wants|);
  }

  /** After a success a second run can succeed if and only if the items have distinct names, and must
      if and only if the first one had to. */
  lemma SecondRunSucceedsIff(job: Job, cs: seq<Config>, es: seq<Event>)
    requires SucceededRun(job, cs, es)
    ensures MaySucceed(job, cs[|es|].store) <==> DistinctSlots(job)
    ensures !MayFail(job, cs[|es|].store) <==> DistinctSlots(job) && MustSucceed(job, cs[0].store)
  {
    hide CanSucceed, MustSucceed, DistinctSlots, PassTo, Possible;
    var s0, s := cs[0].store, cs[|es|].store;
    SuccessPossible(job, s);
    SuccessCertain(job, s);
    if MaySucceed(job, s) {
      var ds: seq<Config>, fs: seq<Event> :| CleanRunFrom(job, s, ds, fs) && ds[|fs|].proc.err == Succeeded;
      SecondSuccessNeedsDistinctNames(job, cs, es, ds, fs);
    }
    var ds, fs := CleanRunExists(job, s);
    assert MaySucceed(job, s) || MayFail(job, s);
    if DistinctSlots(job) {
      var ix0 := EndState(job, cs, es);
      PassedCanSucceed(job, s0, ix0);
      ProspectsKept(job, cs, es, |es|);
    }
  }

  /** For instance one Role granted in two namespaces by one LdapGroupBinding: from an empty cluster
      every fault-free run succeeds, and after it none does. */
  lemma TwoNamespacesOnce(job: Job, v: Want, w: Want, cs: seq<Config>, es: seq<Event>)
    requires job.wants == [v, w] && v.item.kind == w.item.kind == ROLE && v.Supported() && w.Supported()
    requires v.group == w.group && v.item.name == w.item.name && v.item.ns != w.item.ns
    requires CleanRunFrom(job, map[], cs, es)
    ensures cs[|es|].proc.err == Succeeded && !MaySucceed(job, cs[|es|].store)
  {
    assert Held(job, map[]) == {};
    assert OneCopy(job, map[]);
    assert job.KeyFor(v) != job.KeyFor(w) && job.SlotFor(v) == job.SlotFor(w);
    assert job.wants[0] == v && job.wants[1] == w;
    forall j | 0 <= j < 2 ensures Passable(job, map[], j) {
      assert Free(job, map[], j);
    }
    SuccessByStore(job, cs, es);
    SecondRunSucceedsIff(job, cs, es);
  }
}
