/** What the order of a listing decides. */
module Choices {
  import opened Rbac
  import opened Reconciler
  import opened SoloRun
  import opened Convergence
  import opened Outcomes
  import opened CleanRuns

  ghost predicate MaySucceed(job: Job, s0: Store) {
    exists cs: seq<Config>, es: seq<Event> :: CleanRunFrom(job, s0, cs, es) && cs[|es|].proc.err == Succeeded
  }

  ghost predicate MayFail(job: Job, s0: Store) {
    exists cs: seq<Config>, es: seq<Event> :: CleanRunFrom(job, s0, cs, es) && cs[|es|].proc.err != Succeeded
  }

  predicate FitsFirst(job: Job, s0: Store, h: Key)
    requires h in s0
  {
    exists j | 0 <= j < |job.wants| && Finds(job, s0, j) && job.SlotFor(job.wants[j]) == SlotOf(h) ::
      Fits(job, s0, j, h)
  }

  /** Held copies that suit the first item for their name. */
  function FittingCopies(job: Job, s0: Store): set<Key> {
    set h | h in Held(job, s0) && FitsFirst(job, s0, h)
  }

  /** A run with the index that prefers certain copies, as far as it gets. */
  lemma RunWith(job: Job, s0: Store, preferred: set<Key>) returns (cs: seq<Config>, es: seq<Event>)
    ensures CleanRunFrom(job, s0, cs, es) && ListedAs(cs, IndexWith(job, s0, preferred))
    ensures cs[|es|].proc.err == Succeeded <==> PassTo(job, s0, IndexWith(job, s0, preferred), |job.wants|)
  {
    hide PassTo, Possible;
    cs, es := CleanRun(job, s0, IndexWith(job, s0, preferred));
    var ix0 := SuccessCharacterised(job, cs, es);
  }

  /** The choice of copies suits the items up to `d`. */
  predicate Suits(job: Job, s0: Store, ix0: Index, d: nat)
    requires d <= |job.wants| && Possible(job, s0, ix0)
  {
    forall j | 0 <= j < d && Finds(job, s0, j) && job.SlotFor(job.wants[j]) in ix0 ::
      Fits(job, s0, j, ix0[job.SlotFor(job.wants[j])].key)
  }

  lemma PassWhenSuited(job: Job, s0: Store, ix0: Index, d: nat)
    requires Possible(job, s0, ix0) && d <= |job.wants| && Reachable(job, s0, d) && Suits(job, s0, ix0, d)
    ensures PassTo(job, s0, ix0, d)
  {
    hide Possible, Passes, Finds, NeedsCreate, Free, Fits;
    forall j | 0 <= j < d ensures Passes(job, s0, ix0, j) {
      assert Passable(job, s0, j);
      PassMeaning(job, s0, ix0, j);
    }
  }

  lemma FittingFits(job: Job, s0: Store, preferred: set<Key>, j: nat)
    requires j < |job.wants| && Finds(job, s0, j) && SomeCopyFits(job, s0, j)
    requires Copies(job, s0, job.SlotFor(job.wants[j])) * preferred
             == Copies(job, s0, job.SlotFor(job.wants[j])) * FittingCopies(job, s0)
    ensures Fits(job, s0, j, Choose(Copies(job, s0, job.SlotFor(job.wants[j])), preferred))
  {
    hide Fits;
    var copies := Copies(job, s0, job.SlotFor(job.wants[j]));
    var h :| h in copies && Fits(job, s0, j, h);
    assert h in copies * FittingCopies(job, s0);
    var c := Choose(copies, preferred);
    assert c in copies * FittingCopies(job, s0);
    var i :| 0 <= i < |job.wants| && Finds(job, s0, i) && job.SlotFor(job.wants[i]) == SlotOf(c) && Fits(job, s0, i, c);
    assert i == j;
  }

  /** Some fault-free run succeeds if and only if every item that creates finds its key free, and
      every item that finds a binding has an object at its key or a held copy that needs no update. */
  lemma SuccessPossible(job: Job, s0: Store)
    ensures MaySucceed(job, s0) <==> CanSucceed(job, s0)
  {
    if MaySucceed(job, s0) {
      var cs: seq<Config>, es: seq<Event> :| CleanRunFrom(job, s0, cs, es) && cs[|es|].proc.err == Succeeded;
      var ix0 := SuccessCharacterised(job, cs, es);
      PassToBetween(job, s0, ix0, |job.wants|);
    }
    if CanSucceed(job, s0) {
      hide PassTo, Finds, SomeCopyFits, Fits, Possible;
      var fitting := FittingCopies(job, s0);
      forall j | 0 <= j < |job.wants| && Finds(job, s0, j)
        ensures Fits(job, s0, j, Choose(Copies(job, s0, job.SlotFor(job.wants[j])), fitting))
      {
        assert Passable(job, s0, j);
        FittingFits(job, s0, fitting, j);
      }
      PassWhenSuited(job, s0, IndexWith(job, s0, fitting), |job.wants|);
      var cs, es := RunWith(job, s0, fitting);
    }
  }

  /** Held copies of the item's name that do not suit it. */
  function Unfit(job: Job, s0: Store, j: nat): set<Key>
    requires j < |job.wants|
  {
    set h | h in Copies(job, s0, job.SlotFor(job.wants[j])) && !Fits(job, s0, j, h)
  }

  lemma BlockedByUnfit(job: Job, s0: Store, j: nat)
    requires j < |job.wants| && !Unblocked(job, s0, j)
    ensures !Passes(job, s0, IndexWith(job, s0, Unfit(job, s0, j)), j)
  {
    hide Possible, Passes, Finds, NeedsCreate, Free, Fits;
    var copies, unfit := Copies(job, s0, job.SlotFor(job.wants[j])), Unfit(job, s0, j);
    PassMeaning(job, s0, IndexWith(job, s0, unfit), j);
    if Finds(job, s0, j) && !AllCopiesFit(job, s0, j) {
      var h :| h in copies && !Fits(job, s0, j, h);
      assert h in copies * unfit;
      assert Choose(copies, unfit) in unfit;
      assert IndexWith(job, s0, unfit)[job.SlotFor(job.wants[j])].key == Choose(copies, unfit);
    }
  }

  /** Every fault-free run succeeds if and only if the same holds with every held copy. */
  lemma SuccessCertain(job: Job, s0: Store)
    ensures !MayFail(job, s0) <==> MustSucceed(job, s0)
  {
    if MayFail(job, s0) {
      var cs: seq<Config>, es: seq<Event> :| CleanRunFrom(job, s0, cs, es) && cs[|es|].proc.err != Succeeded;
      var ix0 := SuccessCharacterised(job, cs, es);
      PassToBetween(job, s0, ix0, |job.wants|);
    }
    if !MustSucceed(job, s0) {
      hide Possible, Passes, Unblocked;
      var j :| 0 <= j < |job.wants| && !Unblocked(job, s0, j);
      var unfit := Unfit(job, s0, j);
      BlockedByUnfit(job, s0, j);
      var cs, es := RunWith(job, s0, unfit);
    }
  }

  /** The order of a listing decides if and only if success is possible and some item finds its key
      free and, among the copies held in other namespaces, one that needs an update. */
  lemma ListingOrderDecides(job: Job, s0: Store)
    ensures MaySucceed(job, s0) && MayFail(job, s0)
      <==> (&& CanSucceed(job, s0)
            && exists j | 0 <= j < |job.wants| :: Finds(job, s0, j) && !AllCopiesFit(job, s0, j))
  {
    hide Finds, AllCopiesFit, SomeCopyFits, Free, MaySucceed, MayFail;
    SuccessPossible(job, s0);
    SuccessCertain(job, s0);
    if CanSucceed(job, s0) {
      forall j | 0 <= j < |job.wants|
        ensures Unblocked(job, s0, j) <==> !(Finds(job, s0, j) && !AllCopiesFit(job, s0, j))
      {
        assert Passable(job, s0, j);
      }
    }
  }

  /** For a job of one item: if and only if nothing is at its key and the copies held disagree. */
  lemma OneItemOrder(job: Job, s0: Store, w: Want)
    requires job.wants == [w] && w.Supported()
    ensures MaySucceed(job, s0) && MayFail(job, s0)
      <==> (&& job.KeyFor(w) !in s0
            && exists h, k | h in Copies(job, s0, job.SlotFor(w)) && k in Copies(job, s0, job.SlotFor(w)) ::
                 job.Matches(w, s0[h]) && !job.Matches(w, s0[k]))
  {
    hide MaySucceed, MayFail;
    ListingOrderDecides(job, s0);
    var copies := Copies(job, s0, job.SlotFor(w));
    assert Finds(job, s0, 0) <==> copies != {};
    if copies != {} {
      assert CanSucceed(job, s0) <==> Passable(job, s0, 0);
      assert Passable(job, s0, 0) <==> SomeCopyFits(job, s0, 0);
    }
  }

  /** For instance with one copy as wanted and one not, both in other namespaces. */
  lemma ThirdNamespace(job: Job, w: Want, a: Key, c: Key, b: Binding)
    requires job.wants == [w] && w.item.kind == ROLE && w.Supported()
    requires a.Namespaced? && c.Namespaced? && a.name == c.name == job.NameFor(w)
    requires a.ns != c.ns && a.ns != w.item.ns && c.ns != w.item.ns
    requires job.Owns(b) && !job.Matches(w, b)
    ensures MaySucceed(job, map[a := job.Ideal(w), c := b]) && MayFail(job, map[a := job.Ideal(w), c := b])
  {
    var s0: Store := map[a := job.Ideal(w), c := b];
    hide MaySucceed, MayFail;
    PatchMeaning(job, w, b);
    assert a in Copies(job, s0, job.SlotFor(w)) && c in Copies(job, s0, job.SlotFor(w));
    OneItemOrder(job, s0, w);
  }

  /** A name no item asks for loses the binding indexed, and that one only. */
  lemma UnaskedAtEnd(job: Job, s0: Store, ix0: Index, k: Key)
    requires Possible(job, s0, ix0) && k in Held(job, s0) && !Asked(job, |job.wants|, SlotOf(k))
    ensures k in Trimmed(job, s0, ix0, map[]) <==> ix0[SlotOf(k)].key != k
    ensures k in Trimmed(job, s0, ix0, map[]) ==> Trimmed(job, s0, ix0, map[])[k] == s0[k]
  {
    var n := |job.wants|;
    hide StoreAfter;
    AfterUnasked(job, s0, ix0, n, k);
    assert SlotOf(k) in Rest(job, ix0, n);
    if k in Gone(Rest(job, ix0, n), map[]) {
      var sl :| sl in Rest(job, ix0, n) && ix0[sl].key == k;
    }
  }

  /** A name held in two namespaces and no longer wanted: wherever success is possible at all, a
      fault-free run can report success and leave either of the two behind. */
  lemma StaleNamespaceSurvives(job: Job, s0: Store, left: Key, gone: Key) returns (cs: seq<Config>, es: seq<Event>)
    requires left in Held(job, s0) && gone in Held(job, s0) && left != gone && SlotOf(left) == SlotOf(gone)
    requires !Asked(job, |job.wants|, SlotOf(left)) && CanSucceed(job, s0)
    ensures CleanRunFrom(job, s0, cs, es) && cs[|es|].proc.err == Succeeded
    ensures left in Held(job, cs[|es|].store) && gone !in cs[|es|].store
    ensures !RoleExact(job, cs[|es|].store)
  {
    var n, sl := |job.wants|, SlotOf(gone);
    var preferred := FittingCopies(job, s0) + {gone};
    forall j | 0 <= j < n && Finds(job, s0, j)
      ensures Fits(job, s0, j, Choose(Copies(job, s0, job.SlotFor(job.wants[j])), preferred))
    {
      assert Passable(job, s0, j);
      FittingFits(job, s0, preferred, j);
    }
    PassWhenSuited(job, s0, IndexWith(job, s0, preferred), n);
    cs, es := RunWith(job, s0, preferred);
    var ix0 := EndState(job, cs, es);
    assert gone in Copies(job, s0, sl) && Copies(job, s0, sl) * preferred == {gone};
    assert ix0[sl].key == gone;
    UnaskedAtEnd(job, s0, ix0, left);
    UnaskedAtEnd(job, s0, ix0, gone);
    UnaskedNotTarget(job, left);
  }

  /** An update leaves a ClusterRoleBinding's subjects alone: a fault-free run reports success with
      an object that grants the wanted role to others besides the account. */
  lemma WrongSubjectsStay(job: Job, w: Want, b: Binding) returns (cs: seq<Config>, es: seq<Event>)
    requires job.wants == [w] && w.item.kind == CLUSTER_ROLE && job.Owns(b) && b.subjects != [job.Me()]
    ensures CleanRunFrom(job, map[job.KeyFor(w) := b], cs, es) && cs[|es|].proc.err == Succeeded
    ensures job.KeyFor(w) in cs[|es|].store && cs[|es|].store[job.KeyFor(w)] == job.Patch(w, b) != job.Ideal(w)
  {
    var k := job.KeyFor(w);
    var s0: Store := map[k := b];
    assert k in Copies(job, s0, SlotOf(k));
    assert Finds(job, s0, 0) && Fits(job, s0, 0, k);
    SuccessPossible(job, s0);
    cs, es :| CleanRunFrom(job, s0, cs, es) && cs[|es|].proc.err == Succeeded;
    ClusterInPlace(job, s0, 0);
    SettledAtEnd(job, cs, es, 0);
  }
}
