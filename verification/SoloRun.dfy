/** What every step of a run keeps, when nobody else changes the store. */
module SoloRun {
  import opened Rbac
  import opened Api
  import opened Reconciler

  /** One of the first `d` items is for this slot. */
  predicate Asked(job: Job, d: nat, sl: Slot)
    requires d <= |job.wants|
  {
    exists j | 0 <= j < d :: job.wants[j].Supported() && job.SlotFor(job.wants[j]) == sl
  }

  predicate FirstInSlot(job: Job, j: nat)
    requires j < |job.wants|
  {
    !Asked(job, j, job.SlotFor(job.wants[j]))
  }

  /** What the account holds in the item's slot, if anything, is the very key the item is for. */
  predicate Aligned(job: Job, s0: Store, w: Want) {
    forall k | k in Held(job, s0) && SlotOf(k) == job.SlotFor(w) :: k == job.KeyFor(w)
  }

  /** A name held as a RoleBinding in one namespace is not first wanted in another. */
  predicate InPlace(job: Job, s0: Store, j: nat)
    requires j < |job.wants|
  {
    FirstInSlot(job, j) ==> Aligned(job, s0, job.wants[j])
  }

  /** Item `j` has its binding: updated if the account held it, else created. */
  predicate Settled(job: Job, s0: Store, s: Store, j: nat)
    requires j < |job.wants|
  {
    var w := job.wants[j];
    var k := job.KeyFor(w);
    && k in s
    && (k in s0 ==> k in Held(job, s0) && FirstInSlot(job, j))
    && s[k] == (if k in s0 then job.Patch(w, s0[k]) else job.Ideal(w))
  }

  /** The index holds what the account held, under the right slots. */
  predicate Sound(job: Job, s0: Store, ix: Index) {
    forall sl | sl in ix ::
      SlotOf(ix[sl].key) == sl && ix[sl].key in Held(job, s0) && ix[sl].obj == s0[ix[sl].key]
  }

  /** Every binding held at the start has its slot in the index or among the items dealt with. */
  predicate Covered(job: Job, s0: Store, ix: Index, d: nat)
    requires d <= |job.wants|
  {
    forall k | k in Held(job, s0) :: SlotOf(k) in ix || Asked(job, d, SlotOf(k))
  }

  predicate Struck(job: Job, ix: Index, d: nat)
    requires d <= |job.wants|
  {
    forall j | 0 <= j < d && job.wants[j].Supported() :: job.SlotFor(job.wants[j]) !in ix
  }

  predicate Untouched(job: Job, s0: Store, s: Store, d: nat)
    requires d <= |job.wants|
  {
    forall k | k in s0.Keys + s.Keys && !Asked(job, d, SlotOf(k)) :: Same(s0, s, k)
  }

  /** Created for item `j`. */
  predicate MadeFor(job: Job, s: Store, k: Key, j: nat)
    requires j < |job.wants|
  {
    var w := job.wants[j];
    w.Supported() && job.KeyFor(w) == k && k in s && s[k] == job.Ideal(w)
  }

  /** Updated for item `j`; a binding the account did not hold is reached only through one of the
      same name that it did hold. */
  predicate PatchedFor(job: Job, s0: Store, s: Store, k: Key, j: nat)
    requires j < |job.wants|
  {
    var w := job.wants[j];
    && w.Supported() && job.KeyFor(w) == k
    && k in s0 && k in s && s[k] == job.Patch(w, s0[k])
    && exists h :: h in Held(job, s0) && SlotOf(h) == SlotOf(k)
  }

  predicate Made(job: Job, s: Store, k: Key, d: nat)
    requires d <= |job.wants|
  {
    exists j | 0 <= j < d :: MadeFor(job, s, k, j)
  }

  predicate Patched(job: Job, s0: Store, s: Store, k: Key, d: nat)
    requires d <= |job.wants|
  {
    exists j | 0 <= j < d :: PatchedFor(job, s0, s, k, j)
  }

  predicate Grown(job: Job, s0: Store, s: Store, d: nat)
    requires d <= |job.wants|
  {
    && (forall k | k in s0 :: k in s && (s[k] == s0[k] || Patched(job, s0, s, k, d)))
    && (forall k | k in s && k !in s0 :: Made(job, s, k, d))
  }

  predicate AllSettled(job: Job, s0: Store, s: Store, d: nat)
    requires d <= |job.wants|
  {
    forall j | 0 <= j < d && job.wants[j].Supported() && InPlace(job, s0, j) :: Settled(job, s0, s, j)
  }

  predicate KeysApart(job: Job, s0: Store, d: nat)
    requires d <= |job.wants|
  {
    forall i, j | 0 <= i < j < d && job.wants[i].Supported() && job.wants[j].Supported() && InPlace(job, s0, i) ::
      job.KeyFor(job.wants[i]) != job.KeyFor(job.wants[j])
  }

  /** The ensure phase after `d` items. */
  predicate Ensured(job: Job, s0: Store, s: Store, ix: Index, d: nat) {
    && d <= |job.wants|
    && Sound(job, s0, ix)
    && Covered(job, s0, ix, d)
    && Struck(job, ix, d)
    && Untouched(job, s0, s, d)
    && Grown(job, s0, s, d)
    && AllSettled(job, s0, s, d)
    && KeysApart(job, s0, d)
  }

  /** The index after item `d`, whatever was done for it. */
  function Strike(job: Job, ix: Index, d: nat): Index
    requires d < |job.wants|
  {
    if job.wants[d].Supported() then ix - {job.SlotFor(job.wants[d])} else ix
  }

  predicate SameElsewhere(s: Store, s': Store, n: Key) {
    forall k | k in s.Keys + s'.Keys && k != n :: Same(s, s', k)
  }

  lemma AskedOneMore(job: Job, d: nat, sl: Slot)
    requires d < |job.wants|
    ensures Asked(job, d + 1, sl)
            <==> Asked(job, d, sl) || (job.wants[d].Supported() && job.SlotFor(job.wants[d]) == sl)
  {
  }

  lemma CoveredOneMore(job: Job, s0: Store, ix: Index, d: nat)
    requires d < |job.wants| && Covered(job, s0, ix, d)
    ensures Covered(job, s0, Strike(job, ix, d), d + 1)
  {
    forall k | k in Held(job, s0) ensures SlotOf(k) in Strike(job, ix, d) || Asked(job, d + 1, SlotOf(k)) {
      AskedOneMore(job, d, SlotOf(k));
    }
  }

  lemma UntouchedOneMore(job: Job, s0: Store, s: Store, s': Store, d: nat)
    requires d < |job.wants| && Untouched(job, s0, s, d)
    requires s' == s || (job.wants[d].Supported() && SameElsewhere(s, s', job.KeyFor(job.wants[d])))
    ensures Untouched(job, s0, s', d + 1)
  {
    forall k | k in s0.Keys + s'.Keys && !Asked(job, d + 1, SlotOf(k)) ensures Same(s0, s', k) {
      AskedOneMore(job, d, SlotOf(k));
      if s' != s {
        assert k != job.KeyFor(job.wants[d]);
        assert Same(s, s', k);
      }
      assert k in s0.Keys + s.Keys ==> Same(s0, s, k);
    }
  }

  lemma GrownOneMore(job: Job, s0: Store, s: Store, d: nat)
    requires d < |job.wants| && Grown(job, s0, s, d)
    ensures Grown(job, s0, s, d + 1)
  {
    forall k | k in s && k !in s0 ensures Made(job, s, k, d + 1) {
      var j :| 0 <= j < d && MadeFor(job, s, k, j);
    }
    forall k | k in s0 && s[k] != s0[k] ensures Patched(job, s0, s, k, d + 1) {
      var j :| 0 <= j < d && PatchedFor(job, s0, s, k, j);
    }
  }

  lemma GrownByCreate(job: Job, s0: Store, s: Store, d: nat)
    requires d < |job.wants| && Grown(job, s0, s, d)
    requires job.wants[d].Supported() && job.KeyFor(job.wants[d]) !in s
    ensures Grown(job, s0, s[job.KeyFor(job.wants[d]) := job.Ideal(job.wants[d])], d + 1)
  {
    var n := job.KeyFor(job.wants[d]);
    var s' := s[n := job.Ideal(job.wants[d])];
    forall k | k in s' && k !in s0 ensures Made(job, s', k, d + 1) {
      if k == n {
        assert MadeFor(job, s', k, d);
      } else {
        var j :| 0 <= j < d && MadeFor(job, s, k, j);
        assert MadeFor(job, s', k, j);
      }
    }
    forall k | k in s0 && s'[k] != s0[k] ensures Patched(job, s0, s', k, d + 1) {
      var j :| 0 <= j < d && PatchedFor(job, s0, s, k, j);
      assert PatchedFor(job, s0, s', k, j);
    }
  }

  lemma GrownByPatch(job: Job, s0: Store, s: Store, d: nat, h: Key)
    requires d < |job.wants| && Grown(job, s0, s, d)
    requires job.wants[d].Supported() && job.KeyFor(job.wants[d]) in s0
    requires s[job.KeyFor(job.wants[d])] == s0[job.KeyFor(job.wants[d])]
    requires h in Held(job, s0) && SlotOf(h) == job.SlotFor(job.wants[d])
    ensures Grown(job, s0, s[job.KeyFor(job.wants[d]) := job.Patch(job.wants[d], s[job.KeyFor(job.wants[d])])], d + 1)
  {
    var n := job.KeyFor(job.wants[d]);
    var s' := s[n := job.Patch(job.wants[d], s[n])];
    forall k | k in s' && k !in s0 ensures Made(job, s', k, d + 1) {
      var j :| 0 <= j < d && MadeFor(job, s, k, j);
      assert MadeFor(job, s', k, j);
    }
    forall k | k in s0 && s'[k] != s0[k] ensures Patched(job, s0, s', k, d + 1) {
      if k == n {
        assert PatchedFor(job, s0, s', k, d);
      } else {
        var j :| 0 <= j < d && PatchedFor(job, s0, s, k, j);
        assert PatchedFor(job, s0, s', k, j);
      }
    }
  }

  /** What was settled stays so while item `d` writes to another key. */
  lemma SettledOneMore(job: Job, s0: Store, s: Store, s': Store, d: nat)
    requires d < |job.wants| && AllSettled(job, s0, s, d)
    requires job.wants[d].Supported() && InPlace(job, s0, d) ==> Settled(job, s0, s', d)
    requires SameElsewhere(s, s', job.KeyFor(job.wants[d]))
    requires s' == s || (job.wants[d].Supported() && KeysApart(job, s0, d + 1))
    ensures AllSettled(job, s0, s', d + 1)
  {
    forall j | 0 <= j < d + 1 && job.wants[j].Supported() && InPlace(job, s0, j)
      ensures Settled(job, s0, s', j)
    {
      if j < d {
        assert Settled(job, s0, s, j);
        assert Same(s, s', job.KeyFor(job.wants[j]));
      }
    }
  }

  lemma ApartOneMore(job: Job, s0: Store, d: nat)
    requires d < |job.wants| && KeysApart(job, s0, d)
    requires job.wants[d].Supported() ==>
      forall i | 0 <= i < d && job.wants[i].Supported() && InPlace(job, s0, i) ::
        job.KeyFor(job.wants[i]) != job.KeyFor(job.wants[d])
    ensures KeysApart(job, s0, d + 1)
  {
  }

  lemma EnsuredSkip(job: Job, s0: Store, s: Store, ix: Index, d: nat)
    requires Ensured(job, s0, s, ix, d) && d < |job.wants| && !job.wants[d].Supported()
    ensures Ensured(job, s0, s, ix, d + 1)
  {
    CoveredOneMore(job, s0, ix, d);
    UntouchedOneMore(job, s0, s, s, d);
    GrownOneMore(job, s0, s, d);
    ApartOneMore(job, s0, d);
    SettledOneMore(job, s0, s, s, d);
  }

  /** An item whose slot is still in the index is the first for that slot, and nothing has
      happened to the keys of that slot. */
  lemma Pending(job: Job, s0: Store, s: Store, ix: Index, d: nat)
    requires Ensured(job, s0, s, ix, d) && d < |job.wants| && job.wants[d].Supported()
    requires job.SlotFor(job.wants[d]) in ix
    ensures FirstInSlot(job, d)
    ensures Same(s0, s, job.KeyFor(job.wants[d]))
    ensures var h := ix[job.SlotFor(job.wants[d])].key;
            && h in Held(job, s0) && SlotOf(h) == job.SlotFor(job.wants[d])
            && (Aligned(job, s0, job.wants[d]) ==> h == job.KeyFor(job.wants[d]))
    ensures KeysApart(job, s0, d + 1)
  {
    var w := job.wants[d];
    ApartOneMore(job, s0, d);
  }

  lemma EnsuredKeep(job: Job, s0: Store, s: Store, ix: Index, d: nat)
    requires Ensured(job, s0, s, ix, d) && d < |job.wants| && job.wants[d].Supported()
    requires job.SlotFor(job.wants[d]) in ix
    requires job.Matches(job.wants[d], ix[job.SlotFor(job.wants[d])].obj)
    ensures Ensured(job, s0, s, ix - {job.SlotFor(job.wants[d])}, d + 1)
  {
    var w := job.wants[d];
    Pending(job, s0, s, ix, d);
    PatchMeaning(job, w, ix[job.SlotFor(w)].obj);
    CoveredOneMore(job, s0, ix, d);
    UntouchedOneMore(job, s0, s, s, d);
    GrownOneMore(job, s0, s, d);
    SettledOneMore(job, s0, s, s, d);
  }

  lemma InPlaceMeaning(job: Job, s0: Store, j: nat)
    requires j < |job.wants|
    ensures InPlace(job, s0, j) ==> FirstInSlot(job, j) ==> Aligned(job, s0, job.wants[j])
  {
  }

  lemma EnsuredPatch(job: Job, s0: Store, s: Store, ix: Index, d: nat)
    requires Ensured(job, s0, s, ix, d) && d < |job.wants| && job.wants[d].Supported()
    requires job.SlotFor(job.wants[d]) in ix
    requires job.KeyFor(job.wants[d]) in s
    ensures var n := job.KeyFor(job.wants[d]);
            Ensured(job, s0, s[n := job.Patch(job.wants[d], s[n])], ix - {job.SlotFor(job.wants[d])}, d + 1)
  {
    hide Covered, Untouched, Grown, AllSettled, KeysApart, InPlace;
    var w := job.wants[d];
    var n := job.KeyFor(w);
    var s' := s[n := job.Patch(w, s[n])];
    Pending(job, s0, s, ix, d);
    assert InPlace(job, s0, d) ==> Settled(job, s0, s', d) by {
      InPlaceMeaning(job, s0, d);
    }
    CoveredOneMore(job, s0, ix, d);
    UntouchedOneMore(job, s0, s, s', d);
    GrownByPatch(job, s0, s, d, ix[job.SlotFor(w)].key);
    SettledOneMore(job, s0, s, s', d);
  }

  /** Nothing settled so far has the key of an item about to be created. */
  lemma CreateApart(job: Job, s0: Store, s: Store, d: nat)
    requires d < |job.wants| && AllSettled(job, s0, s, d) && KeysApart(job, s0, d)
    requires job.wants[d].Supported() && job.KeyFor(job.wants[d]) !in s
    ensures KeysApart(job, s0, d + 1)
  {
    forall i | 0 <= i < d && job.wants[i].Supported() && InPlace(job, s0, i)
      ensures job.KeyFor(job.wants[i]) != job.KeyFor(job.wants[d])
    {
      assert Settled(job, s0, s, i);
    }
    ApartOneMore(job, s0, d);
  }

  lemma EnsuredCreate(job: Job, s0: Store, s: Store, ix: Index, d: nat)
    requires Ensured(job, s0, s, ix, d) && d < |job.wants| && job.wants[d].Supported()
    requires job.SlotFor(job.wants[d]) !in ix
    requires job.KeyFor(job.wants[d]) !in s
    ensures var n := job.KeyFor(job.wants[d]);
            Ensured(job, s0, s[n := job.Ideal(job.wants[d])], ix - {job.SlotFor(job.wants[d])}, d + 1)
  {
    hide Covered, Untouched, AllSettled, KeysApart, InPlace;
    var w := job.wants[d];
    var n := job.KeyFor(w);
    var s' := s[n := job.Ideal(w)];
    CreateApart(job, s0, s, d);
    assert Settled(job, s0, s', d);
    CoveredOneMore(job, s0, ix, d);
    UntouchedOneMore(job, s0, s, s', d);
    GrownByCreate(job, s0, s, d);
    SettledOneMore(job, s0, s, s', d);
  }

  /** What a run may have done to the store by any point, however it ended. */
  ghost predicate Fates(job: Job, s0: Store, s: Store) {
    && (forall k | k in s0 && k !in s :: k in Held(job, s0) && k !in Targets(job))
    && (forall k | k in s0 && k in s && s[k] != s0[k] :: Patched(job, s0, s, k, |job.wants|))
    && (forall k | k in s && k !in s0 :: Made(job, s, k, |job.wants|))
  }

  /** Keys the prune phase has deleted, when `ix` of the index `ix1` is left. */
  function Gone(ix1: Index, ix: Index): set<Key> {
    set sl | sl in ix1 && sl !in ix :: ix1[sl].key
  }

  ghost predicate PrunedFrom(job: Job, s0: Store, s1: Store, ix1: Index, s: Store, ix: Index) {
    && Ensured(job, s0, s1, ix1, |job.wants|)
    && (forall sl | sl in ix :: sl in ix1 && ix1[sl] == ix[sl])
    && s == s1 - Gone(ix1, ix)
  }

  ghost predicate Pruned(job: Job, s0: Store, s: Store, ix: Index) {
    exists s1, ix1 :: PrunedFrom(job, s0, s1, ix1, s, ix)
  }

  ghost predicate Invariant(job: Job, s0: Store, s: Store, p: Proc) {
    match p
    case ListCluster => s == s0
    case ListNamespaced(ix) =>
      && s == s0 && Sound(job, s0, ix)
      && (forall k | k in Held(job, s0) && k.Cluster? :: SlotOf(k) in ix)
    case Ensure(ix, d) => Ensured(job, s0, s, ix, d)
    case Write(ix, d, fetched) =>
      && Ensured(job, s0, s, ix, d) && d < |job.wants| && job.wants[d].Supported()
      && job.SlotFor(job.wants[d]) in ix
      && !job.Matches(job.wants[d], ix[job.SlotFor(job.wants[d])].obj)
      && job.KeyFor(job.wants[d]) in s && s[job.KeyFor(job.wants[d])] == fetched
    case Prune(ix) => Pruned(job, s0, s, ix)
    case Finished(Succeeded) => Pruned(job, s0, s, map[])
    case Finished(_) => Fates(job, s0, s)
  }

  lemma ListingIndexed(job: Job, s: Store, scope: Scope, items: seq<Listed>)
    requires IsListing(s, scope, items)
    ensures var ix := Indexed(Mine(job.Me(), items));
            && Sound(job, s, ix)
            && (forall sl | sl in ix :: sl.scope == scope)
            && (forall k | k in Held(job, s) && ScopeOf(k) == scope :: SlotOf(k) in ix)
  {
    MineMeaning(job, items);
    IndexedMeaning(Mine(job.Me(), items));
    forall k | k in Held(job, s) && ScopeOf(k) == scope ensures SlotOf(k) in Indexed(Mine(job.Me(), items)) {
      assert Listed(k, s[k]) in Mine(job.Me(), items);
    }
  }

  lemma FatesFromGrown(job: Job, s0: Store, s: Store, d: nat)
    requires d <= |job.wants| && Grown(job, s0, s, d)
    ensures Fates(job, s0, s)
    decreases |job.wants| - d
  {
    if d < |job.wants| {
      GrownOneMore(job, s0, s, d);
      FatesFromGrown(job, s0, s, d + 1);
    }
  }

  lemma FatesFromEnsured(job: Job, s0: Store, s: Store, ix: Index, d: nat)
    requires Ensured(job, s0, s, ix, d)
    ensures Fates(job, s0, s)
  {
    hide Fates;
    FatesFromGrown(job, s0, s, d);
  }

  /** What is left in the index after the last item is held and not wanted. */
  lemma LeftoversUnwanted(job: Job, s0: Store, ix: Index)
    requires Sound(job, s0, ix) && Struck(job, ix, |job.wants|)
    ensures forall sl | sl in ix :: ix[sl].key in Held(job, s0) && ix[sl].key !in Targets(job)
  {
    forall sl | sl in ix ensures ix[sl].key !in Targets(job) {
      forall w | w in job.wants && w.Supported() ensures job.KeyFor(w) != ix[sl].key {
        var j :| 0 <= j < |job.wants| && job.wants[j] == w;
        assert job.SlotFor(job.wants[j]) !in ix;
      }
    }
  }

  lemma FatesMinus(job: Job, s0: Store, s1: Store, gone: set<Key>)
    requires Fates(job, s0, s1)
    requires forall k | k in gone :: k in Held(job, s0) && k !in Targets(job)
    ensures Fates(job, s0, s1 - gone)
  {
    var s, n := s1 - gone, |job.wants|;
    forall k | k in s && k !in s0 ensures Made(job, s, k, n) {
      var j :| 0 <= j < n && MadeFor(job, s1, k, j);
      assert MadeFor(job, s, k, j);
    }
    forall k | k in s0 && k in s && s[k] != s0[k] ensures Patched(job, s0, s, k, n) {
      var j :| 0 <= j < n && PatchedFor(job, s0, s1, k, j);
      assert PatchedFor(job, s0, s, k, j);
    }
  }

  lemma FatesFromPruned(job: Job, s0: Store, s: Store, ix: Index)
    requires Pruned(job, s0, s, ix)
    ensures Fates(job, s0, s)
  {
    var s1: Store, ix1: Index :| PrunedFrom(job, s0, s1, ix1, s, ix);
    FatesFromGrown(job, s0, s1, |job.wants|);
    LeftoversUnwanted(job, s0, ix1);
    FatesMinus(job, s0, s1, Gone(ix1, ix));
  }

  lemma GoneOneMore(ix1: Index, ix: Index, sl: Slot)
    requires forall x | x in ix1 :: SlotOf(ix1[x].key) == x
    requires forall x | x in ix :: x in ix1 && ix1[x] == ix[x]
    requires sl in ix
    ensures Gone(ix1, ix - {sl}) == Gone(ix1, ix) + {ix[sl].key}
    ensures ix[sl].key !in Gone(ix1, ix)
  {
    var k := ix[sl].key;
    forall x | x in Gone(ix1, ix - {sl}) ensures x in Gone(ix1, ix) + {k} {
      var y :| y in ix1 && y !in ix - {sl} && ix1[y].key == x;
    }
    forall x | x in Gone(ix1, ix) ensures x in Gone(ix1, ix - {sl}) {
      var y :| y in ix1 && y !in ix && ix1[y].key == x;
      assert y !in ix - {sl};
    }
    assert sl !in ix - {sl};
  }

  lemma IndexSlots(job: Job, s0: Store, s: Store, ix: Index, d: nat)
    requires Ensured(job, s0, s, ix, d)
    ensures forall sl | sl in ix :: SlotOf(ix[sl].key) == sl && ix[sl].key in s
  {
  }

  lemma PruneOneMore(job: Job, s0: Store, s: Store, ix: Index, k: Key)
    requires Pruned(job, s0, s, ix)
    requires SlotOf(k) in ix && ix[SlotOf(k)].key == k
    ensures k in s && Pruned(job, s0, s - {k}, ix - {SlotOf(k)})
  {
    hide Ensured;
    var s1: Store, ix1: Index :| PrunedFrom(job, s0, s1, ix1, s, ix);
    var sl := SlotOf(k);
    IndexSlots(job, s0, s1, ix1, |job.wants|);
    GoneOneMore(ix1, ix, sl);
    assert s - {k} == s1 - Gone(ix1, ix - {sl});
    assert PrunedFrom(job, s0, s1, ix1, s - {k}, ix - {sl});
  }

  lemma LocalStepKeeps(job: Job, s0: Store, c: Config, c': Config)
    requires Invariant(job, s0, c.store, c.proc) && Step(job, c, Local, c')
    ensures Invariant(job, s0, c'.store, c'.proc)
  {
    match c.proc
    case Ensure(ix, d) =>
      if d < |job.wants| {
        if job.wants[d].Supported() {
          EnsuredKeep(job, s0, c.store, ix, d);
        } else {
          EnsuredSkip(job, s0, c.store, ix, d);
        }
      } else {
        assert Gone(ix, ix) == {};
        assert c.store - {} == c.store;
        assert PrunedFrom(job, s0, c.store, ix, c.store, ix);
      }
    case Prune(ix) =>
    case _ =>
  }

  lemma ListStepKeeps(job: Job, s0: Store, c: Config, e: Event, c': Config)
    requires Invariant(job, s0, c.store, c.proc) && Step(job, c, e, c')
    requires c.proc.ListCluster? || c.proc.ListNamespaced?
    ensures Invariant(job, s0, c'.store, c'.proc)
  {
    if e.reply.Items? {
      var scope := e.call.scope;
      ListingIndexed(job, s0, scope, e.reply.items);
      if c.proc.ListNamespaced? {
        var ix := c'.proc.index;
        forall k | k in Held(job, s0) ensures SlotOf(k) in ix {
          assert k.Cluster? || ScopeOf(k) == AllNamespaces;
        }
      }
    } else {
      assert Fates(job, s0, s0);
    }
  }

  lemma CreateStepKeeps(job: Job, s0: Store, c: Config, e: Event, c': Config)
    requires Invariant(job, s0, c.store, c.proc) && Step(job, c, e, c')
    requires e.Called? && c.proc.Ensure? && e.call.Create?
    ensures Invariant(job, s0, c'.store, c'.proc)
  {
    hide Ensured, Fates;
    var ix, d := c.proc.index, c.proc.done;
    var n := job.KeyFor(job.wants[d]);
    if n in c.store {
      FatesFromEnsured(job, s0, c.store, ix, d);
    } else {
      EnsuredCreate(job, s0, c.store, ix, d);
      FatesFromEnsured(job, s0, c.store, ix, d);
      FatesFromEnsured(job, s0, c.store[n := job.Ideal(job.wants[d])], ix - {job.SlotFor(job.wants[d])}, d + 1);
    }
  }

  lemma GetStepKeeps(job: Job, s0: Store, c: Config, e: Event, c': Config)
    requires Invariant(job, s0, c.store, c.proc) && Step(job, c, e, c')
    requires e.Called? && c.proc.Ensure? && e.call.Get?
    ensures Invariant(job, s0, c'.store, c'.proc)
  {
    hide Ensured, Fates;
    FatesFromEnsured(job, s0, c.store, c.proc.index, c.proc.done);
  }

  lemma UpdateStepKeeps(job: Job, s0: Store, c: Config, e: Event, c': Config)
    requires Invariant(job, s0, c.store, c.proc) && Step(job, c, e, c')
    requires e.Called? && c.proc.Write?
    ensures Invariant(job, s0, c'.store, c'.proc)
  {
    hide Ensured, Fates;
    var ix, d := c.proc.index, c.proc.done;
    var n := job.KeyFor(job.wants[d]);
    EnsuredPatch(job, s0, c.store, ix, d);
    FatesFromEnsured(job, s0, c.store, ix, d);
    var s' := c.store[n := job.Patch(job.wants[d], c.store[n])];
    FatesFromEnsured(job, s0, s', ix - {job.SlotFor(job.wants[d])}, d + 1);
  }

  lemma PruneStepKeeps(job: Job, s0: Store, c: Config, e: Event, c': Config)
    requires Invariant(job, s0, c.store, c.proc) && Step(job, c, e, c')
    requires e.Called? && c.proc.Prune?
    ensures Invariant(job, s0, c'.store, c'.proc)
  {
    hide Ensured, Fates, Pruned;
    var k := e.call.key;
    PruneOneMore(job, s0, c.store, c.proc.index, k);
    FatesFromPruned(job, s0, c.store, c.proc.index);
    FatesFromPruned(job, s0, c.store - {k}, c.proc.index - {SlotOf(k)});
  }

  /** Every configuration of a run satisfies the invariant, relative to the store it started from. */
  lemma {:induction false} Always(job: Job, cs: seq<Config>, es: seq<Event>, i: nat)
    requires IsRun(job, cs, es) && i < |cs|
    ensures Invariant(job, cs[0].store, cs[i].store, cs[i].proc)
  {
    if i > 0 {
      var c, e, c' := cs[i - 1], es[i - 1], cs[i];
      Always(job, cs, es, i - 1);
      assert Step(job, c, e, c');
      match c.proc
      case Ensure(_, _) =>
        if e.Local? {
          LocalStepKeeps(job, cs[0].store, c, c');
        } else {
          assert e.call.Create? || e.call.Get?;
          if e.call.Create? {
            CreateStepKeeps(job, cs[0].store, c, e, c');
          } else {
            GetStepKeeps(job, cs[0].store, c, e, c');
          }
        }
      case Write(_, _, _) => UpdateStepKeeps(job, cs[0].store, c, e, c');
      case Prune(_) =>
        if e.Local? {
          LocalStepKeeps(job, cs[0].store, c, c');
        } else {
          PruneStepKeeps(job, cs[0].store, c, e, c');
        }
      case Finished(_) =>
      case ListCluster => ListStepKeeps(job, cs[0].store, c, e, c');
      case ListNamespaced(_) => ListStepKeeps(job, cs[0].store, c, e, c');
    }
  }
}
