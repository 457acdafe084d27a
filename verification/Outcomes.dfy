/** What becomes of a run, exactly: given the index its listings produced, every store it passes
through and whether it succeeds are determined by the job and the store it started from. */
module Outcomes {
  import opened Rbac
  import opened Api
  import opened Reconciler
  import opened SoloRun
  import opened Convergence

  /** An index that some order of the listings produces: one held binding for each name held. */
  predicate Possible(job: Job, s0: Store, ix0: Index) {
    Sound(job, s0, ix0) && forall k | k in Held(job, s0) :: SlotOf(k) in ix0
  }

  /** The run's two listings are through, and have produced this index. */
  predicate ListedAs(cs: seq<Config>, ix0: Index) {
    |cs| > 2 && cs[2] == Config(cs[0].store, Ensure(ix0, 0))
  }

  /** The first item for a name the account holds. */
  predicate Finds(job: Job, s0: Store, j: nat)
    requires j < |job.wants|
  {
    job.wants[j].Supported() && FirstInSlot(job, j) && Copies(job, s0, job.SlotFor(job.wants[j])) != {}
  }

  predicate NeedsCreate(job: Job, s0: Store, j: nat)
    requires j < |job.wants|
  {
    job.wants[j].Supported() && !Finds(job, s0, j)
  }

  predicate NeedsUpdate(job: Job, ix0: Index, j: nat)
    requires j < |job.wants|
  {
    var w := job.wants[j];
    && w.Supported() && FirstInSlot(job, j) && job.SlotFor(w) in ix0
    && !job.Matches(w, ix0[job.SlotFor(w)].obj)
  }

  /** Nothing has the item's key, neither from the start nor by an earlier item. */
  predicate Free(job: Job, s0: Store, j: nat)
    requires j < |job.wants|
  {
    var k := job.KeyFor(job.wants[j]);
    k !in s0 && forall i | 0 <= i < j && NeedsCreate(job, s0, i) :: job.KeyFor(job.wants[i]) != k
  }

  predicate Passes(job: Job, s0: Store, ix0: Index, j: nat)
    requires j < |job.wants|
  {
    && (NeedsCreate(job, s0, j) ==> Free(job, s0, j))
    && (NeedsUpdate(job, ix0, j) ==> job.KeyFor(job.wants[j]) in s0)
  }

  predicate PassTo(job: Job, s0: Store, ix0: Index, d: nat)
    requires d <= |job.wants|
  {
    forall j | 0 <= j < d :: Passes(job, s0, ix0, j)
  }

  /** The store after the first `d` items. */
  function StoreAfter(job: Job, s0: Store, ix0: Index, d: nat): Store
    requires d <= |job.wants|
  {
    if d == 0 then s0
    else
      var s, w := StoreAfter(job, s0, ix0, d - 1), job.wants[d - 1];
      var k := job.KeyFor(w);
      if NeedsCreate(job, s0, d - 1) && k !in s then s[k := job.Ideal(w)]
      else if NeedsUpdate(job, ix0, d - 1) && k in s0 then s[k := job.Patch(w, s0[k])]
      else s
  }

  /** The index after the first `d` items. */
  function Rest(job: Job, ix0: Index, d: nat): Index
    requires d <= |job.wants|
  {
    map sl | sl in ix0 && !Asked(job, d, sl) :: ix0[sl]
  }

  /** The store once the leftovers outside `ix` are deleted. */
  function Trimmed(job: Job, s0: Store, ix0: Index, ix: Index): Store {
    StoreAfter(job, s0, ix0, |job.wants|) - Gone(Rest(job, ix0, |job.wants|), ix)
  }

  lemma SlotsOfPossible(job: Job, s0: Store, ix0: Index, sl: Slot)
    requires Possible(job, s0, ix0)
    ensures sl in ix0 <==> Copies(job, s0, sl) != {}
    ensures sl in ix0 ==> ix0[sl].key in Copies(job, s0, sl) && ix0[sl].obj == s0[ix0[sl].key]
  {
    if sl in ix0 {
      assert ix0[sl].key in Copies(job, s0, sl);
    }
    if Copies(job, s0, sl) != {} {
      var k :| k in Copies(job, s0, sl);
      assert k in Held(job, s0) && SlotOf(k) == sl;
    }
  }

  lemma {:induction false} AfterUnasked(job: Job, s0: Store, ix0: Index, d: nat, k: Key)
    requires d <= |job.wants| && !Asked(job, d, SlotOf(k))
    ensures Same(s0, StoreAfter(job, s0, ix0, d), k)
  {
    if d > 0 {
      AskedOneMore(job, d - 1, SlotOf(k));
      AfterUnasked(job, s0, ix0, d - 1, k);
    }
  }

  lemma {:induction false} AfterKeys(job: Job, s0: Store, ix0: Index, d: nat, k: Key)
    requires d <= |job.wants|
    ensures k in StoreAfter(job, s0, ix0, d)
            <==> k in s0 || exists i | 0 <= i < d :: NeedsCreate(job, s0, i) && job.KeyFor(job.wants[i]) == k
  {
    if d > 0 {
      AfterKeys(job, s0, ix0, d - 1, k);
    }
  }

  lemma {:induction false} AfterCreate(job: Job, s0: Store, ix0: Index, d: nat, j: nat)
    requires j < d <= |job.wants| && NeedsCreate(job, s0, j) && Free(job, s0, j)
    ensures var w := job.wants[j];
            job.KeyFor(w) in StoreAfter(job, s0, ix0, d) && StoreAfter(job, s0, ix0, d)[job.KeyFor(w)] == job.Ideal(w)
  {
    hide NeedsCreate;
    if j < d - 1 {
      AfterCreate(job, s0, ix0, d - 1, j);
    } else {
      AfterKeys(job, s0, ix0, j, job.KeyFor(job.wants[j]));
    }
  }

  lemma {:induction false} AfterUpdate(job: Job, s0: Store, ix0: Index, d: nat, j: nat)
    requires j < d <= |job.wants| && NeedsUpdate(job, ix0, j) && job.KeyFor(job.wants[j]) in s0
    ensures var w := job.wants[j];
            var k := job.KeyFor(w);
            k in StoreAfter(job, s0, ix0, d) && StoreAfter(job, s0, ix0, d)[k] == job.Patch(w, s0[k])
  {
    hide NeedsCreate;
    if j < d - 1 {
      AfterUpdate(job, s0, ix0, d - 1, j);
      assert job.SlotFor(job.wants[d - 1]) == job.SlotFor(job.wants[j]) ==> !FirstInSlot(job, d - 1);
    } else {
      AfterKeys(job, s0, ix0, j, job.KeyFor(job.wants[j]));
    }
  }

  lemma {:induction false} AfterElse(job: Job, s0: Store, ix0: Index, d: nat, k: Key)
    requires d <= |job.wants| && k in s0
    requires forall j | 0 <= j < d && NeedsUpdate(job, ix0, j) :: job.KeyFor(job.wants[j]) != k
    ensures k in StoreAfter(job, s0, ix0, d) && StoreAfter(job, s0, ix0, d)[k] == s0[k]
  {
    hide NeedsCreate, NeedsUpdate;
    if d > 0 {
      AfterElse(job, s0, ix0, d - 1, k);
    }
  }

  lemma RestOneMore(job: Job, ix0: Index, d: nat)
    requires d < |job.wants|
    ensures Rest(job, ix0, d + 1) == Strike(job, Rest(job, ix0, d), d)
  {
    forall sl ensures sl in Rest(job, ix0, d + 1) <==> sl in Strike(job, Rest(job, ix0, d), d) {
      AskedOneMore(job, d, sl);
    }
  }

  lemma PassOneMore(job: Job, s0: Store, ix0: Index, d: nat)
    requires d < |job.wants| && PassTo(job, s0, ix0, d) && Passes(job, s0, ix0, d)
    ensures PassTo(job, s0, ix0, d + 1)
  {
  }

  predicate IsTrimmed(job: Job, s0: Store, ix0: Index, s: Store, ix: Index) {
    && (forall sl | sl in ix :: sl in Rest(job, ix0, |job.wants|) && Rest(job, ix0, |job.wants|)[sl] == ix[sl])
    && s == Trimmed(job, s0, ix0, ix)
  }

  /** A run that failed at the last of the first `d` items, its effect there or not. */
  predicate StoppedAt(job: Job, s0: Store, ix0: Index, s: Store, d: nat)
    requires d <= |job.wants|
  {
    s == StoreAfter(job, s0, ix0, d) && PassTo(job, s0, ix0, if d == 0 then 0 else d - 1)
  }

  ghost predicate Stopped(job: Job, s0: Store, ix0: Index, s: Store) {
    || (exists d | 0 <= d <= |job.wants| :: StoppedAt(job, s0, ix0, s, d))
    || (PassTo(job, s0, ix0, |job.wants|) && exists ix :: IsTrimmed(job, s0, ix0, s, ix))
  }

  /** Item `d` is the first that does not pass. */
  predicate Blocks(job: Job, s0: Store, ix0: Index, d: nat)
    requires d < |job.wants|
  {
    PassTo(job, s0, ix0, d) && !Passes(job, s0, ix0, d)
  }

  predicate BlockedAt(job: Job, s0: Store, ix0: Index, s: Store) {
    exists d | 0 <= d < |job.wants| :: Blocks(job, s0, ix0, d) && s == StoreAfter(job, s0, ix0, d)
  }

  lemma PassToLess(job: Job, s0: Store, ix0: Index, d: nat)
    requires d <= |job.wants| && PassTo(job, s0, ix0, d)
    ensures d > 0 ==> PassTo(job, s0, ix0, d - 1)
    ensures PassTo(job, s0, ix0, 0)
  {
  }

  /** Where a run is, given the index it listed.  A failed run stopped at the store after some item,
      or some way into the deletions. */
  ghost predicate OnTrack(job: Job, s0: Store, ix0: Index, s: Store, p: Proc) {
    match p
    case Ensure(ix, d) =>
      && d <= |job.wants| && PassTo(job, s0, ix0, d)
      && ix == Rest(job, ix0, d) && s == StoreAfter(job, s0, ix0, d)
    case Write(ix, d, fetched) =>
      && d < |job.wants| && PassTo(job, s0, ix0, d)
      && ix == Rest(job, ix0, d) && s == StoreAfter(job, s0, ix0, d)
      && NeedsUpdate(job, ix0, d) && job.KeyFor(job.wants[d]) in s0 && fetched == s0[job.KeyFor(job.wants[d])]
    case Prune(ix) => PassTo(job, s0, ix0, |job.wants|) && IsTrimmed(job, s0, ix0, s, ix)
    case Finished(Succeeded) => PassTo(job, s0, ix0, |job.wants|) && IsTrimmed(job, s0, ix0, s, map[])
    case Finished(_) => Stopped(job, s0, ix0, s)
    case _ => false
  }

  /** What an item not yet dealt with finds. */
  lemma AtItem(job: Job, s0: Store, ix0: Index, d: nat)
    requires Possible(job, s0, ix0) && d < |job.wants| && job.wants[d].Supported()
    ensures var w := job.wants[d];
            var k, sl, ix, s := job.KeyFor(w), job.SlotFor(w), Rest(job, ix0, d), StoreAfter(job, s0, ix0, d);
            if sl in ix
            then
              && sl in ix0 && ix[sl] == ix0[sl] && !NeedsCreate(job, s0, d) && Same(s0, s, k)
              && (NeedsUpdate(job, ix0, d) <==> !job.Matches(w, ix[sl].obj))
            else
              NeedsCreate(job, s0, d) && !NeedsUpdate(job, ix0, d) && (Free(job, s0, d) <==> k !in s)
  {
    var w := job.wants[d];
    var k := job.KeyFor(w);
    SlotsOfPossible(job, s0, ix0, job.SlotFor(w));
    AfterKeys(job, s0, ix0, d, k);
    if FirstInSlot(job, d) {
      AfterUnasked(job, s0, ix0, d, k);
    }
  }

  lemma Unsupported(job: Job, s0: Store, ix0: Index, d: nat)
    requires d < |job.wants| && !job.wants[d].Supported()
    ensures !NeedsCreate(job, s0, d) && !NeedsUpdate(job, ix0, d)
  {
  }

  lemma EnsureAdvances(job: Job, s0: Store, ix0: Index, c: Config, e: Event, c': Config)
    requires Possible(job, s0, ix0) && OnTrack(job, s0, ix0, c.store, c.proc) && Step(job, c, e, c')
    requires c.proc.Ensure? && c.proc.done < |job.wants| && !c'.proc.Finished?
    ensures OnTrack(job, s0, ix0, c'.store, c'.proc)
  {
    hide Possible, Rest, NeedsCreate, NeedsUpdate, Free, PassTo, IsTrimmed, Stopped;
    var d := c.proc.done;
    RestOneMore(job, ix0, d);
    if job.wants[d].Supported() {
      AtItem(job, s0, ix0, d);
    } else {
      Unsupported(job, s0, ix0, d);
    }
    if c'.proc.Ensure? {
      PassOneMore(job, s0, ix0, d);
    }
  }

  lemma EnsureStops(job: Job, s0: Store, ix0: Index, c: Config, e: Event, c': Config)
    requires Possible(job, s0, ix0) && OnTrack(job, s0, ix0, c.store, c.proc) && Step(job, c, e, c')
    requires c.proc.Ensure? && c.proc.done < |job.wants| && c'.proc.Finished?
    ensures OnTrack(job, s0, ix0, c'.store, c'.proc)
    ensures e.Clean() ==> Blocks(job, s0, ix0, c.proc.done) && c'.store == StoreAfter(job, s0, ix0, c.proc.done)
  {
    hide Possible, Rest, NeedsCreate, NeedsUpdate, Free, PassTo, IsTrimmed;
    var d := c.proc.done;
    AtItem(job, s0, ix0, d);
    PassToLess(job, s0, ix0, d);
    assert StoppedAt(job, s0, ix0, c'.store, d) || StoppedAt(job, s0, ix0, c'.store, d + 1);
  }

  lemma EnsureOnTrack(job: Job, s0: Store, ix0: Index, c: Config, e: Event, c': Config)
    requires Possible(job, s0, ix0) && OnTrack(job, s0, ix0, c.store, c.proc) && Step(job, c, e, c')
    requires c.proc.Ensure? && c.proc.done < |job.wants|
    ensures OnTrack(job, s0, ix0, c'.store, c'.proc)
    ensures e.Clean() && c'.proc.Finished? ==>
              Blocks(job, s0, ix0, c.proc.done) && c'.store == StoreAfter(job, s0, ix0, c.proc.done)
  {
    hide *;
    if c'.proc.Finished? {
      EnsureStops(job, s0, ix0, c, e, c');
    } else {
      EnsureAdvances(job, s0, ix0, c, e, c');
    }
  }

  lemma UpdatesDoNotCreate(job: Job, s0: Store, ix0: Index, d: nat)
    requires Possible(job, s0, ix0) && d < |job.wants| && NeedsUpdate(job, ix0, d)
    ensures !NeedsCreate(job, s0, d)
  {
    SlotsOfPossible(job, s0, ix0, job.SlotFor(job.wants[d]));
  }

  lemma WriteOnTrack(job: Job, s0: Store, ix0: Index, c: Config, e: Event, c': Config)
    requires Possible(job, s0, ix0) && OnTrack(job, s0, ix0, c.store, c.proc) && Step(job, c, e, c')
    requires c.proc.Write?
    ensures OnTrack(job, s0, ix0, c'.store, c'.proc)
    ensures e.Clean() ==> !c'.proc.Finished?
  {
    hide Possible, Rest, PassTo, IsTrimmed;
    var d := c.proc.done;
    RestOneMore(job, ix0, d);
    UpdatesDoNotCreate(job, s0, ix0, d);
    AfterKeys(job, s0, ix0, d, job.KeyFor(job.wants[d]));
    if e.reply == Done {
      PassOneMore(job, s0, ix0, d);
    } else {
      PassToLess(job, s0, ix0, d);
      assert StoppedAt(job, s0, ix0, c'.store, d) || StoppedAt(job, s0, ix0, c'.store, d + 1);
    }
  }

  lemma RestSound(job: Job, s0: Store, ix0: Index)
    requires Possible(job, s0, ix0)
    ensures var ix := Rest(job, ix0, |job.wants|);
            forall sl | sl in ix :: SlotOf(ix[sl].key) == sl && ix[sl].key in Held(job, s0)
  {
  }

  lemma TrimOneMore(job: Job, s0: Store, ix0: Index, s: Store, ix: Index, k: Key)
    requires Possible(job, s0, ix0) && IsTrimmed(job, s0, ix0, s, ix)
    requires SlotOf(k) in ix && ix[SlotOf(k)].key == k
    ensures k in s && IsTrimmed(job, s0, ix0, s - {k}, ix - {SlotOf(k)})
  {
    hide Possible, Asked;
    var n := |job.wants|;
    RestSound(job, s0, ix0);
    GoneOneMore(Rest(job, ix0, n), ix, SlotOf(k));
    AfterKeys(job, s0, ix0, n, k);
  }

  lemma PruneOnTrack(job: Job, s0: Store, ix0: Index, c: Config, e: Event, c': Config)
    requires Possible(job, s0, ix0) && OnTrack(job, s0, ix0, c.store, c.proc) && Step(job, c, e, c')
    requires c.proc.Prune?
    ensures OnTrack(job, s0, ix0, c'.store, c'.proc)
    ensures e.Clean() && c'.proc.Finished? ==> c'.proc.err == Succeeded
  {
    hide Possible, IsTrimmed, PassTo;
    if e.Called? {
      TrimOneMore(job, s0, ix0, c.store, c.proc.index, e.call.key);
    }
  }

  lemma NothingTrimmed(job: Job, s0: Store, ix0: Index)
    ensures IsTrimmed(job, s0, ix0, StoreAfter(job, s0, ix0, |job.wants|), Rest(job, ix0, |job.wants|))
  {
    var ix := Rest(job, ix0, |job.wants|);
    assert Gone(ix, ix) == {};
  }

  lemma StepOnTrack(job: Job, s0: Store, ix0: Index, c: Config, e: Event, c': Config)
    requires Possible(job, s0, ix0) && OnTrack(job, s0, ix0, c.store, c.proc) && Step(job, c, e, c')
    ensures OnTrack(job, s0, ix0, c'.store, c'.proc)
    ensures e.Clean() && c'.proc.Finished? && c'.proc.err != Succeeded ==> BlockedAt(job, s0, ix0, c'.store)
  {
    hide Possible, IsTrimmed, Rest, StoreAfter, Passes, Stopped;
    match c.proc
    case Ensure(_, d) =>
      if d < |job.wants| {
        EnsureOnTrack(job, s0, ix0, c, e, c');
      } else {
        NothingTrimmed(job, s0, ix0);
      }
    case Write(_, _, _) => WriteOnTrack(job, s0, ix0, c, e, c');
    case Prune(_) => PruneOnTrack(job, s0, ix0, c, e, c');
    case Finished(_) =>
  }

  lemma PossibleAtFirst(job: Job, s0: Store, ix0: Index)
    requires Sound(job, s0, ix0) && Covered(job, s0, ix0, 0)
    ensures Possible(job, s0, ix0)
  {
  }

  /** The two listings of a run that gets past them. */
  lemma Listing(job: Job, cs: seq<Config>, es: seq<Event>) returns (ix0: Index)
    requires IsRun(job, cs, es) && |cs| > 2 && !cs[1].proc.Finished? && !cs[2].proc.Finished?
    ensures ListedAs(cs, ix0) && Possible(job, cs[0].store, ix0)
  {
    assert Step(job, cs[0], es[0], cs[0 + 1]) && Step(job, cs[1], es[1], cs[1 + 1]);
    Always(job, cs, es, 2);
    ix0 := cs[2].proc.index;
    hide Sound, Step;
    PossibleAtFirst(job, cs[0].store, ix0);
  }

  lemma {:induction false} AlwaysOnTrack(job: Job, cs: seq<Config>, es: seq<Event>, ix0: Index, i: nat)
    requires IsRun(job, cs, es) && ListedAs(cs, ix0) && Possible(job, cs[0].store, ix0) && 2 <= i < |cs|
    ensures OnTrack(job, cs[0].store, ix0, cs[i].store, cs[i].proc)
  {
    if i == 2 {
      assert Rest(job, ix0, 0) == ix0;
    } else {
      hide OnTrack, Possible, Step;
      AlwaysOnTrack(job, cs, es, ix0, i - 1);
      assert Step(job, cs[i - 1], es[i - 1], cs[i - 1 + 1]);
      StepOnTrack(job, cs[0].store, ix0, cs[i - 1], es[i - 1], cs[i]);
    }
  }

  lemma NotYetFinished(job: Job, cs: seq<Config>, es: seq<Event>, i: nat)
    requires IsRun(job, cs, es) && i < |es|
    ensures !cs[i].proc.Finished?
  {
    assert Step(job, cs[i], es[i], cs[i + 1]);
  }

  lemma TrackStops(job: Job, s0: Store, ix0: Index, s: Store, p: Proc)
    requires OnTrack(job, s0, ix0, s, p)
    ensures Stopped(job, s0, ix0, s)
  {
    hide StoreAfter, IsTrimmed, PassTo;
    match p
    case Ensure(_, d) =>
      PassToLess(job, s0, ix0, d);
      assert StoppedAt(job, s0, ix0, s, d);
    case Write(_, d, _) =>
      PassToLess(job, s0, ix0, d);
      assert StoppedAt(job, s0, ix0, s, d);
    case _ =>
  }

  /** Whatever faults it met and wherever it was cut, a run has passed through no other stores than
      the one it started from, those after some number of items, and those with some leftovers gone. */
  lemma Trajectory(job: Job, cs: seq<Config>, es: seq<Event>, i: nat)
    requires IsRun(job, cs, es) && i < |cs|
    ensures cs[i].store == cs[0].store
      || exists ix0 ::
           ListedAs(cs, ix0) && Possible(job, cs[0].store, ix0) && Stopped(job, cs[0].store, ix0, cs[i].store)
  {
    if i > 0 {
      assert Step(job, cs[0], es[0], cs[0 + 1]);
    }
    if i > 1 {
      assert Step(job, cs[1], es[1], cs[1 + 1]);
    }
    if i > 2 {
      NotYetFinished(job, cs, es, 1);
      NotYetFinished(job, cs, es, 2);
      var ix0 := Listing(job, cs, es);
      AlwaysOnTrack(job, cs, es, ix0, i);
      TrackStops(job, cs[0].store, ix0, cs[i].store, cs[i].proc);
    }
  }

  lemma ListsFirst(job: Job, cs: seq<Config>, es: seq<Event>)
    requires CompleteRun(job, cs, es) && (AllClean(es) || cs[|es|].proc.err == Succeeded)
    ensures |cs| > 3 && !cs[1].proc.Finished? && !cs[2].proc.Finished?
  {
    assert Step(job, cs[0], es[0], cs[0 + 1]) && es[0] in es;
    if |es| > 1 {
      NotYetFinished(job, cs, es, 1);
      assert Step(job, cs[1], es[1], cs[1 + 1]) && es[1] in es;
      if |es| > 2 {
        NotYetFinished(job, cs, es, 2);
      }
    }
  }

  /** Without a precondition, given the index a complete fault-free run listed: it passes some
      number of items and succeeds if that is all of them; its last store follows. */
  lemma CleanEnd(job: Job, cs: seq<Config>, es: seq<Event>) returns (ix0: Index, d: nat)
    requires CompleteRun(job, cs, es) && AllClean(es)
    ensures ListedAs(cs, ix0) && Possible(job, cs[0].store, ix0)
    ensures d <= |job.wants| && PassTo(job, cs[0].store, ix0, d)
    ensures if d < |job.wants|
            then !Passes(job, cs[0].store, ix0, d) && cs[|es|].store == StoreAfter(job, cs[0].store, ix0, d)
            else cs[|es|].store == Trimmed(job, cs[0].store, ix0, map[])
    ensures cs[|es|].proc.err == Succeeded <==> d == |job.wants|
  {
    ListsFirst(job, cs, es);
    ix0 := Listing(job, cs, es);
    hide PassTo, Possible, Step, Passes, StoreAfter, Trimmed;
    var s0, i := cs[0].store, |es| - 1;
    AlwaysOnTrack(job, cs, es, ix0, i);
    assert es[i] in es && Step(job, cs[i], es[i], cs[i + 1]);
    StepOnTrack(job, s0, ix0, cs[i], es[i], cs[i + 1]);
    d := |job.wants|;
    if cs[|es|].proc.err != Succeeded {
      d :| 0 <= d < |job.wants| && Blocks(job, s0, ix0, d) && cs[|es|].store == StoreAfter(job, s0, ix0, d);
    }
  }

  /** So it succeeds if and only if every item passes. */
  lemma SuccessCharacterised(job: Job, cs: seq<Config>, es: seq<Event>) returns (ix0: Index)
    requires CompleteRun(job, cs, es) && AllClean(es)
    ensures ListedAs(cs, ix0) && Possible(job, cs[0].store, ix0)
    ensures cs[|es|].proc.err == Succeeded <==> PassTo(job, cs[0].store, ix0, |job.wants|)
  {
    hide Passes, StoreAfter, Trimmed, Possible;
    var d: nat;
    ix0, d := CleanEnd(job, cs, es);
  }

  /** The store a successful run ends in, as a function of its job, start and index. */
  lemma EndState(job: Job, cs: seq<Config>, es: seq<Event>) returns (ix0: Index)
    requires SucceededRun(job, cs, es)
    ensures ListedAs(cs, ix0) && Possible(job, cs[0].store, ix0)
    ensures PassTo(job, cs[0].store, ix0, |job.wants|)
    ensures cs[|es|].store == Trimmed(job, cs[0].store, ix0, map[])
  {
    ListsFirst(job, cs, es);
    ix0 := Listing(job, cs, es);
    AlwaysOnTrack(job, cs, es, ix0, |es|);
  }

  /** Every wanted name is held in one namespace at most. */
  predicate OneCopy(job: Job, s0: Store) {
    forall h, k |
      && h in Held(job, s0) && k in Held(job, s0)
      && SlotOf(h) == SlotOf(k) && Asked(job, |job.wants|, SlotOf(k)) ::
      h == k
  }

  /** What item `j` needs, if it is the first for a name held: an object at its key, or a copy that
      needs no update. */
  predicate Fits(job: Job, s0: Store, j: nat, h: Key)
    requires j < |job.wants| && h in s0
  {
    job.KeyFor(job.wants[j]) in s0 || job.Matches(job.wants[j], s0[h])
  }

  predicate SomeCopyFits(job: Job, s0: Store, j: nat)
    requires j < |job.wants|
  {
    exists h | h in Copies(job, s0, job.SlotFor(job.wants[j])) :: Fits(job, s0, j, h)
  }

  predicate AllCopiesFit(job: Job, s0: Store, j: nat)
    requires j < |job.wants|
  {
    forall h | h in Copies(job, s0, job.SlotFor(job.wants[j])) :: Fits(job, s0, j, h)
  }

  /** No index keeps the run from passing item `j`. */
  predicate Unblocked(job: Job, s0: Store, j: nat)
    requires j < |job.wants|
  {
    && (NeedsCreate(job, s0, j) ==> Free(job, s0, j))
    && (Finds(job, s0, j) ==> AllCopiesFit(job, s0, j))
  }

  /** Some index lets the run pass item `j`. */
  predicate Passable(job: Job, s0: Store, j: nat)
    requires j < |job.wants|
  {
    && (NeedsCreate(job, s0, j) ==> Free(job, s0, j))
    && (Finds(job, s0, j) ==> SomeCopyFits(job, s0, j))
  }

  /** Some fault-free run gets to item `d`. */
  predicate Reachable(job: Job, s0: Store, d: nat)
    requires d <= |job.wants|
  {
    forall j | 0 <= j < d :: Passable(job, s0, j)
  }

  predicate CanSucceed(job: Job, s0: Store) {
    Reachable(job, s0, |job.wants|)
  }

  predicate MustSucceed(job: Job, s0: Store) {
    forall j | 0 <= j < |job.wants| :: Unblocked(job, s0, j)
  }

  lemma PassMeaning(job: Job, s0: Store, ix0: Index, j: nat)
    requires Possible(job, s0, ix0) && j < |job.wants|
    ensures Finds(job, s0, j) ==> job.SlotFor(job.wants[j]) in ix0
    ensures Passes(job, s0, ix0, j)
      <==> (&& (NeedsCreate(job, s0, j) ==> Free(job, s0, j))
            && (Finds(job, s0, j) ==> Fits(job, s0, j, ix0[job.SlotFor(job.wants[j])].key)))
  {
    hide Possible, Free;
    SlotsOfPossible(job, s0, ix0, job.SlotFor(job.wants[j]));
  }

  lemma PassBetween(job: Job, s0: Store, ix0: Index, j: nat)
    requires Possible(job, s0, ix0) && j < |job.wants|
    ensures Unblocked(job, s0, j) ==> Passes(job, s0, ix0, j)
    ensures Passes(job, s0, ix0, j) ==> Passable(job, s0, j)
  {
    hide Possible, Free, Passes, Fits, NeedsCreate;
    SlotsOfPossible(job, s0, ix0, job.SlotFor(job.wants[j]));
    PassMeaning(job, s0, ix0, j);
  }

  lemma OneCopyDecides(job: Job, s0: Store, j: nat)
    requires OneCopy(job, s0) && j < |job.wants|
    ensures Passable(job, s0, j) <==> Unblocked(job, s0, j)
  {
    hide Fits, Free;
    if Finds(job, s0, j) {
      var sl := job.SlotFor(job.wants[j]);
      assert Asked(job, |job.wants|, sl);
      var k :| k in Copies(job, s0, sl);
    }
  }

  lemma PassToBetween(job: Job, s0: Store, ix0: Index, d: nat)
    requires Possible(job, s0, ix0) && d <= |job.wants|
    ensures MustSucceed(job, s0) ==> PassTo(job, s0, ix0, d)
    ensures PassTo(job, s0, ix0, d) ==> Reachable(job, s0, d)
    ensures OneCopy(job, s0) && Reachable(job, s0, d) ==> PassTo(job, s0, ix0, d)
  {
    hide Possible, Passes, Passable, Unblocked, OneCopy;
    forall j | 0 <= j < d
      ensures Unblocked(job, s0, j) ==> Passes(job, s0, ix0, j)
      ensures Passes(job, s0, ix0, j) ==> Passable(job, s0, j)
      ensures OneCopy(job, s0) && Passable(job, s0, j) ==> Unblocked(job, s0, j)
    {
      PassBetween(job, s0, ix0, j);
      if OneCopy(job, s0) {
        OneCopyDecides(job, s0, j);
      }
    }
  }

  /** Where every wanted name is held in one namespace at most, the job and the store decide. */
  lemma SuccessByStore(job: Job, cs: seq<Config>, es: seq<Event>)
    requires CompleteRun(job, cs, es) && AllClean(es) && OneCopy(job, cs[0].store)
    ensures cs[|es|].proc.err == Succeeded <==> CanSucceed(job, cs[0].store)
    ensures CanSucceed(job, cs[0].store) <==> MustSucceed(job, cs[0].store)
  {
    var s0 := cs[0].store;
    var ix0 := SuccessCharacterised(job, cs, es);
    PassToBetween(job, s0, ix0, |job.wants|);
    forall j | 0 <= j < |job.wants| ensures Passable(job, s0, j) <==> Unblocked(job, s0, j) {
      OneCopyDecides(job, s0, j);
    }
  }

  /** A run that reports success has met no fault. */
  lemma SuccessIsClean(job: Job, cs: seq<Config>, es: seq<Event>)
    requires SucceededRun(job, cs, es)
    ensures AllClean(es)
  {
    forall e | e in es ensures e.Clean() {
      var i :| 0 <= i < |es| && es[i] == e;
      assert Step(job, cs[i], es[i], cs[i + 1]);
      if i + 1 < |es| {
        NotYetFinished(job, cs, es, i + 1);
      }
    }
  }
}
