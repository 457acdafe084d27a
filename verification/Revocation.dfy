/** Taking everything away: a job that asks for nothing.

The index keeps one RoleBinding per name, so one run removes one namespace of each. */
module Revocation {
  import opened Rbac
  import opened Reconciler
  import opened SoloRun
  import opened Safety
  import opened Convergence
  import opened Goals
  import opened Outcomes
  import opened Choices
  import opened Retries

  function Less(n: nat, d: nat): nat {
    if n <= d then 0 else n - d
  }

  lemma NothingEnsured(job: Job, s0: Store, s1: Store, ix: Index)
    requires Ensured(job, s0, s1, ix, |job.wants|) && job.wants == []
    ensures s1 == s0
    ensures forall sl | sl in ix :: SlotOf(ix[sl].key) == sl && ix[sl].key in Held(job, s0)
    ensures forall k | k in Held(job, s0) :: SlotOf(k) in ix
  {
    forall k | k in s0.Keys + s1.Keys ensures Same(s0, s1, k) {
      assert !Asked(job, 0, SlotOf(k));
    }
    assert forall k | k in s0.Keys + s1.Keys :: (k in s0 <==> k in s1) && (k in s0 ==> s0[k] == s1[k]);
  }

  lemma OneFewer(job: Job, s0: Store, s: Store, ix: Index, sl: Slot)
    requires forall sl | sl in ix :: SlotOf(ix[sl].key) == sl && ix[sl].key in Held(job, s0)
    requires forall k | k in Held(job, s0) :: SlotOf(k) in ix
    requires s == s0 - Gone(ix, map[])
    ensures |Copies(job, s, sl)| == Less(|Copies(job, s0, sl)|, 1)
  {
    if sl in ix {
      var k := ix[sl].key;
      assert k in Copies(job, s0, sl);
      assert k in Gone(ix, map[]);
      assert Copies(job, s, sl) == Copies(job, s0, sl) - {k};
    } else {
      assert Copies(job, s, sl) == {} == Copies(job, s0, sl);
    }
  }

  /** One fault-free run deletes exactly one binding per name held, and nothing else changes. */
  lemma RevokeOnce(job: Job, cs: seq<Config>, es: seq<Event>)
    requires CompleteRun(job, cs, es) && AllClean(es) && job.wants == []
    ensures cs[|es|].proc.err == Succeeded
    ensures forall sl :: |Copies(job, cs[|es|].store, sl)| == Less(|Copies(job, cs[0].store, sl)|, 1)
    ensures Held(job, cs[0].store) != {} ==> Held(job, cs[|es|].store) < Held(job, cs[0].store)
    ensures forall k | k !in Held(job, cs[0].store) :: Same(cs[0].store, cs[|es|].store, k)
  {
    var s0, s := cs[0].store, cs[|es|].store;
    SuccessWhenAgreed(job, cs, es);
    Frame(job, cs, es, |es|);
    Sandwich(job, cs, es, |es|);
    var s1, ix := EndOfRun(job, cs, es);
    NothingEnsured(job, s0, s1, ix);
    forall sl ensures |Copies(job, s, sl)| == Less(|Copies(job, s0, sl)|, 1) {
      OneFewer(job, s0, s, ix, sl);
    }
    if Held(job, s0) != {} {
      var k :| k in Held(job, s0);
      assert k in Copies(job, s0, SlotOf(k));
      assert Copies(job, s, SlotOf(k)) != Copies(job, s0, SlotOf(k));
    }
  }

  /** A complete fault-free run leads from one store to the other. */
  ghost predicate CleanPass(job: Job, a: Store, b: Store) {
    exists cs: seq<Config>, es: seq<Event> ::
      CompleteRun(job, cs, es) && AllClean(es) && cs[0].store == a && cs[|es|].store == b
  }

  lemma {:induction false} RevokeTimes(job: Job, stores: seq<Store>, n: nat, sl: Slot)
    requires n < |stores| && job.wants == []
    requires forall i | 0 <= i < |stores| - 1 :: CleanPass(job, stores[i], stores[i + 1])
    ensures |Copies(job, stores[n], sl)| == Less(|Copies(job, stores[0], sl)|, n)
  {
    if n > 0 {
      RevokeTimes(job, stores, n - 1, sl);
      assert CleanPass(job, stores[n - 1], stores[n - 1 + 1]);
      var cs: seq<Config>, es: seq<Event> :|
        CompleteRun(job, cs, es) && AllClean(es) && cs[0].store == stores[n - 1] && cs[|es|].store == stores[n];
      RevokeOnce(job, cs, es);
    }
  }

  /** After `n` runs the account holds nothing if and only if no name was held in more than `n`
      namespaces. */
  lemma RevocationByRepetition(job: Job, stores: seq<Store>, n: nat)
    requires n < |stores| && job.wants == []
    requires forall i | 0 <= i < |stores| - 1 :: CleanPass(job, stores[i], stores[i + 1])
    ensures Held(job, stores[n]) == {}
            <==> forall k | k in Held(job, stores[0]) :: |Copies(job, stores[0], SlotOf(k))| <= n
  {
    var s0, s := stores[0], stores[n];
    if Held(job, s) == {} {
      forall k | k in Held(job, s0) ensures |Copies(job, s0, SlotOf(k))| <= n {
        RevokeTimes(job, stores, n, SlotOf(k));
        assert Copies(job, s, SlotOf(k)) == {};
      }
    } else {
      var k :| k in Held(job, s);
      RevokeTimes(job, stores, n, SlotOf(k));
      assert k in Copies(job, s, SlotOf(k));
      var g := Copies(job, s0, SlotOf(k));
      assert |g| > n;
      assert g != {};
      var h :| h in g;
      assert h in Held(job, s0) && SlotOf(h) == SlotOf(k);
    }
  }

  /** A successful run leads from one store to the other. */
  ghost predicate GoodPass(job: Job, a: Store, b: Store) {
    exists cs: seq<Config>, es: seq<Event> ::
      SucceededRun(job, cs, es) && cs[0].store == a && cs[|es|].store == b
  }

  /** Nothing new appears under a name no item asks for. */
  lemma UnaskedStays(job: Job, s0: Store, ix0: Index, k: Key)
    requires Possible(job, s0, ix0) && !Asked(job, |job.wants|, SlotOf(k))
    ensures k in Trimmed(job, s0, ix0, map[]) ==> k in s0 && Trimmed(job, s0, ix0, map[])[k] == s0[k]
  {
    hide StoreAfter, Possible;
    AfterUnasked(job, s0, ix0, |job.wants|, k);
  }

  /** A successful run removes one copy of every name held that no item asks for. */
  lemma UnaskedLoseOne(job: Job, cs: seq<Config>, es: seq<Event>, sl: Slot)
    requires SucceededRun(job, cs, es) && !Asked(job, |job.wants|, sl)
    ensures |Copies(job, cs[|es|].store, sl)| == Less(|Copies(job, cs[0].store, sl)|, 1)
  {
    var s0, s := cs[0].store, cs[|es|].store;
    var ix0 := EndState(job, cs, es);
    hide Possible, Trimmed, PassTo;
    SlotsOfPossible(job, s0, ix0, sl);
    forall k: Key | SlotOf(k) == sl
      ensures k in Copies(job, s, sl) <==> k in Copies(job, s0, sl) && ix0[sl].key != k
    {
      UnaskedStays(job, s0, ix0, k);
      if k in Copies(job, s0, sl) {
        UnaskedAtEnd(job, s0, ix0, k);
      }
    }
    if sl in ix0 {
      assert Copies(job, s, sl) == Copies(job, s0, sl) - {ix0[sl].key};
    } else {
      assert Copies(job, s, sl) == {};
    }
  }

  /** With distinct names no run changes whether held names agree with the items for them. */
  lemma AgreementKept(job: Job, cs: seq<Config>, es: seq<Event>, i: nat)
    requires IsRun(job, cs, es) && i < |cs| && DistinctSlots(job)
    ensures NamespacesAgree(job, cs[i].store) <==> NamespacesAgree(job, cs[0].store)
  {
    var s0, s := cs[0].store, cs[i].store;
    forall j | 0 <= j < |job.wants| && job.wants[j].Supported()
      ensures Aligned(job, s, job.wants[j]) <==> Aligned(job, s0, job.wants[j])
    {
      var sl, n := job.SlotFor(job.wants[j]), job.KeyFor(job.wants[j]);
      forall k: Key | SlotOf(k) == sl && k != n ensures k in Held(job, s) <==> k in Held(job, s0) {
        NameFateAlways(job, cs, es, i, j, k);
      }
    }
  }

  lemma {:induction false} AgreementOutlives(job: Job, stores: seq<Store>, n: nat)
    requires n < |stores| && DistinctSlots(job)
    requires forall i | 0 <= i < |stores| - 1 :: GoodPass(job, stores[i], stores[i + 1])
    ensures NamespacesAgree(job, stores[n]) <==> NamespacesAgree(job, stores[0])
  {
    hide NamespacesAgree;
    if n > 0 {
      AgreementOutlives(job, stores, n - 1);
      assert GoodPass(job, stores[n - 1], stores[n - 1 + 1]);
      var cs: seq<Config>, es: seq<Event> :|
        SucceededRun(job, cs, es) && cs[0].store == stores[n - 1] && cs[|es|].store == stores[n];
      AgreementKept(job, cs, es, |es|);
    }
  }

  lemma {:induction false} UnaskedLoseMany(job: Job, stores: seq<Store>, n: nat, sl: Slot)
    requires n < |stores| && !Asked(job, |job.wants|, sl)
    requires forall i | 0 <= i < |stores| - 1 :: GoodPass(job, stores[i], stores[i + 1])
    ensures |Copies(job, stores[n], sl)| == Less(|Copies(job, stores[0], sl)|, n)
  {
    hide Copies, Asked;
    if n > 0 {
      UnaskedLoseMany(job, stores, n - 1, sl);
      assert GoodPass(job, stores[n - 1], stores[n - 1 + 1]);
      var cs: seq<Config>, es: seq<Event> :|
        SucceededRun(job, cs, es) && cs[0].store == stores[n - 1] && cs[|es|].store == stores[n];
      UnaskedLoseOne(job, cs, es, sl);
    }
  }

  lemma {:induction false} AtMostOne(ks: set<Key>)
    ensures |ks| <= 1 <==> forall h, k | h in ks && k in ks :: h == k
  {
    if ks != {} {
      var k :| k in ks;
      var rest := ks - {k};
      if rest != {} {
        var h :| h in rest;
        assert h in ks && h != k && |rest| > 0;
      } else {
        assert ks == {k};
      }
    }
  }

  lemma OneNamespaceUnfolded(job: Job, s: Store)
    ensures OneNamespacePerName(job, s)
      <==> (&& NamespacesAgree(job, s)
            && forall sl: Slot | !Asked(job, |job.wants|, sl) ::
                 forall h, k | h in Copies(job, s, sl) && k in Copies(job, s, sl) :: h == k)
  {
    hide NamespacesAgree, Asked;
    forall k | k in Held(job, s) ensures k in Copies(job, s, SlotOf(k)) {
    }
  }

  lemma CopiesUnfolded(job: Job, s: Store, n: nat)
    ensures (forall k | k in Held(job, s) && !Asked(job, |job.wants|, SlotOf(k)) :: |Copies(job, s, SlotOf(k))| <= n)
      <==> forall sl: Slot | !Asked(job, |job.wants|, sl) :: |Copies(job, s, sl)| <= n
  {
    hide Asked;
    forall sl | |Copies(job, s, sl)| > n ensures exists k | k in Held(job, s) :: SlotOf(k) == sl {
      assert Copies(job, s, sl) != {};
      var k :| k in Copies(job, s, sl);
    }
  }

  /** After `n` successful runs of a job with distinct names its RoleBindings are exact if and only if
      at the start held names agreed with the items for them and no other name was held in more than
      `n` namespaces.  In particular repetition never heals an item moved to another namespace. */
  lemma HealingByRepetition(job: Job, stores: seq<Store>, n: nat)
    requires 0 < n < |stores| && DistinctSlots(job)
    requires forall i | 0 <= i < |stores| - 1 :: GoodPass(job, stores[i], stores[i + 1])
    ensures RoleExact(job, stores[n])
      <==> (&& NamespacesAgree(job, stores[0])
            && forall k | k in Held(job, stores[0]) && !Asked(job, |job.wants|, SlotOf(k)) ::
                 |Copies(job, stores[0], SlotOf(k))| <= n)
  {
    hide DistinctSlots, NamespacesAgree, RoleExact, Asked;
    var s0, s := stores[0], stores[n - 1];
    AgreementOutlives(job, stores, n - 1);
    assert GoodPass(job, stores[n - 1], stores[n - 1 + 1]);
    var cs: seq<Config>, es: seq<Event> :|
      SucceededRun(job, cs, es) && cs[0].store == s && cs[|es|].store == stores[n];
    RoleConvergence(job, cs, es);
    forall sl | !Asked(job, |job.wants|, sl)
      ensures (forall h, k | h in Copies(job, s, sl) && k in Copies(job, s, sl) :: h == k)
        <==> |Copies(job, s0, sl)| <= n
    {
      UnaskedLoseMany(job, stores, n - 1, sl);
      AtMostOne(Copies(job, s, sl));
    }
    OneNamespaceUnfolded(job, s);
    CopiesUnfolded(job, s0, n);
  }
}
