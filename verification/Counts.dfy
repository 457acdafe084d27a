/** How many writes a successful run makes, whatever the store: one create for each item that needs
one, one update for each that needs one, one delete for each name held that no item asks for. */
module Counts {
  import opened Rbac
  import opened Reconciler
  import opened Convergence
  import opened Outcomes
  import opened Writes

  function Creating(job: Job, s0: Store, d: nat): set<nat>
    requires d <= |job.wants|
  {
    set j: nat | j < d && NeedsCreate(job, s0, j)
  }

  function Updating(job: Job, ix0: Index, d: nat): set<nat>
    requires d <= |job.wants|
  {
    set j: nat | j < d && NeedsUpdate(job, ix0, j)
  }

  /** The writes made up to item `d`, with some leftovers deleted. */
  predicate Counted(job: Job, s0: Store, ix0: Index, d: nat, deleted: int, es: seq<Event>)
    requires d <= |job.wants|
  {
    && Tally(es, Creates) == |Creating(job, s0, d)|
    && Tally(es, Updates) == |Updating(job, ix0, d)|
    && Tally(es, Deletes) == deleted
  }

  predicate CountedAt(job: Job, s0: Store, ix0: Index, p: Proc, es: seq<Event>) {
    match p
    case Ensure(_, d) => d <= |job.wants| && Counted(job, s0, ix0, d, 0, es)
    case Write(_, d, _) => d < |job.wants| && Counted(job, s0, ix0, d, 0, es)
    case Prune(ix) => Counted(job, s0, ix0, |job.wants|, |Rest(job, ix0, |job.wants|)| - |ix|, es)
    case Finished(Succeeded) => Counted(job, s0, ix0, |job.wants|, |Rest(job, ix0, |job.wants|)|, es)
    case _ => true
  }

  lemma CreatingOneMore(job: Job, s0: Store, d: nat)
    requires d < |job.wants|
    ensures |Creating(job, s0, d + 1)| == |Creating(job, s0, d)| + if NeedsCreate(job, s0, d) then 1 else 0
  {
    hide NeedsCreate;
    assert Creating(job, s0, d + 1) == Creating(job, s0, d) + if NeedsCreate(job, s0, d) then {d} else {};
  }

  lemma UpdatingOneMore(job: Job, ix0: Index, d: nat)
    requires d < |job.wants|
    ensures |Updating(job, ix0, d + 1)| == |Updating(job, ix0, d)| + if NeedsUpdate(job, ix0, d) then 1 else 0
  {
    hide NeedsUpdate;
    assert Updating(job, ix0, d + 1) == Updating(job, ix0, d) + if NeedsUpdate(job, ix0, d) then {d} else {};
  }

  lemma ItemCounted(job: Job, s0: Store, ix0: Index, d: nat, e: Event, es: seq<Event>)
    requires d < |job.wants| && Counted(job, s0, ix0, d, 0, es)
    requires OfKind(e, Creates) <==> NeedsCreate(job, s0, d)
    requires OfKind(e, Updates) <==> NeedsUpdate(job, ix0, d)
    requires !OfKind(e, Deletes)
    ensures Counted(job, s0, ix0, d + 1, 0, es + [e])
  {
    hide Tally, OfKind, NeedsCreate, NeedsUpdate, Creating, Updating;
    TallyOneMore(es, e);
    CreatingOneMore(job, s0, d);
    UpdatingOneMore(job, ix0, d);
  }

  /** The event of a step that deals with an item, or begins an update for it. */
  lemma EnsureShape(job: Job, c: Config, e: Event, c': Config)
    requires Step(job, c, e, c') && c.proc.Ensure? && c.proc.done < |job.wants| && !c'.proc.Finished?
    ensures !OfKind(e, Updates) && !OfKind(e, Deletes)
    ensures var w, ix, d := job.wants[c.proc.done], c.proc.index, c.proc.done;
            if c'.proc.Write? then c'.proc.done == d && (e.Called? ==> !e.call.Write())
            else
              && c'.proc.Ensure? && c'.proc.done == d + 1
              && (OfKind(e, Creates) <==> w.Supported() && job.SlotFor(w) !in ix)
              && (w.Supported() && job.SlotFor(w) in ix ==> job.Matches(w, ix[job.SlotFor(w)].obj))
  {
  }

  lemma Uncounted(job: Job, s0: Store, ix0: Index, d: nat, e: Event, es: seq<Event>)
    requires d <= |job.wants| && Counted(job, s0, ix0, d, 0, es) && (e.Called? ==> !e.call.Write())
    ensures Counted(job, s0, ix0, d, 0, es + [e])
  {
    TallyOneMore(es, e);
  }

  lemma EnsureCounted(job: Job, s0: Store, ix0: Index, c: Config, e: Event, c': Config, es: seq<Event>)
    requires Possible(job, s0, ix0) && OnTrack(job, s0, ix0, c.store, c.proc) && Step(job, c, e, c')
    requires c.proc.Ensure? && c.proc.done < |job.wants| && !c'.proc.Finished?
    requires CountedAt(job, s0, ix0, c.proc, es)
    ensures CountedAt(job, s0, ix0, c'.proc, es + [e])
  {
    hide Possible, Counted, NeedsCreate, NeedsUpdate, Free, PassTo, StoreAfter, Rest;
    var d := c.proc.done;
    EnsureShape(job, c, e, c');
    hide Step, OfKind;
    if job.wants[d].Supported() {
      AtItem(job, s0, ix0, d);
    } else {
      Unsupported(job, s0, ix0, d);
    }
    if c'.proc.Write? {
      Uncounted(job, s0, ix0, d, e, es);
    } else {
      ItemCounted(job, s0, ix0, d, e, es);
    }
  }

  lemma WriteShape(job: Job, c: Config, e: Event, c': Config)
    requires Step(job, c, e, c') && c.proc.Write? && !c'.proc.Finished?
    ensures OfKind(e, Updates) && !OfKind(e, Creates) && !OfKind(e, Deletes)
    ensures c'.proc.Ensure? && c'.proc.done == c.proc.done + 1
  {
  }

  lemma WriteCounted(job: Job, s0: Store, ix0: Index, c: Config, e: Event, c': Config, es: seq<Event>)
    requires Possible(job, s0, ix0) && OnTrack(job, s0, ix0, c.store, c.proc) && Step(job, c, e, c')
    requires c.proc.Write? && !c'.proc.Finished?
    requires CountedAt(job, s0, ix0, c.proc, es)
    ensures CountedAt(job, s0, ix0, c'.proc, es + [e])
  {
    hide Possible, Counted, NeedsCreate, NeedsUpdate, PassTo, StoreAfter, Rest;
    WriteShape(job, c, e, c');
    hide Step, OfKind;
    UpdatesDoNotCreate(job, s0, ix0, c.proc.done);
    ItemCounted(job, s0, ix0, c.proc.done, e, es);
  }

  lemma PruneCounted(job: Job, s0: Store, ix0: Index, c: Config, e: Event, c': Config, es: seq<Event>)
    requires Step(job, c, e, c') && c.proc.Prune? && (c'.proc.Finished? ==> c'.proc.err == Succeeded)
    requires CountedAt(job, s0, ix0, c.proc, es)
    ensures CountedAt(job, s0, ix0, c'.proc, es + [e])
  {
    hide Creating, Updating, Rest, Tally;
    TallyOneMore(es, e);
    if e.Called? {
      var ix, sl := c.proc.index, SlotOf(e.call.key);
      assert (ix - {sl})[sl := ix[sl]] == ix;
    }
  }

  lemma ListsAreNoWrites(job: Job, cs: seq<Config>, es: seq<Event>)
    requires IsRun(job, cs, es) && |es| >= 2 && !cs[1].proc.Finished?
    ensures es[0].Called? && es[0].call.List? && es[1].Called? && es[1].call.List?
  {
    assert Step(job, cs[0], es[0], cs[0 + 1]) && Step(job, cs[1], es[1], cs[1 + 1]);
  }

  lemma NoItemsCounted(job: Job, s0: Store, ix0: Index)
    ensures Counted(job, s0, ix0, 0, 0, [])
  {
    assert Creating(job, s0, 0) == {} && Updating(job, ix0, 0) == {};
  }

  lemma TakeOneMore(es: seq<Event>, i: nat)
    requires 0 < i <= |es|
    ensures es[..i] == es[..i - 1] + [es[i - 1]]
  {
  }

  lemma ListingsUncounted(job: Job, cs: seq<Config>, es: seq<Event>, ix0: Index)
    requires IsRun(job, cs, es) && |es| >= 2 && !cs[1].proc.Finished?
    ensures Counted(job, cs[0].store, ix0, 0, 0, es[..2])
  {
    ListsAreNoWrites(job, cs, es);
    hide Counted, IsRun;
    TakeOneMore(es, 1);
    TakeOneMore(es, 2);
    assert es[..0] == [];
    NoItemsCounted(job, cs[0].store, ix0);
    Uncounted(job, cs[0].store, ix0, 0, es[0], es[..0]);
    Uncounted(job, cs[0].store, ix0, 0, es[1], es[..1]);
  }

  lemma CountedFirst(job: Job, cs: seq<Config>, es: seq<Event>, ix0: Index)
    requires IsRun(job, cs, es) && ListedAs(cs, ix0)
    ensures CountedAt(job, cs[0].store, ix0, cs[2].proc, es[..2])
  {
    hide Counted;
    NotYetFinished(job, cs, es, 1);
    ListingsUncounted(job, cs, es, ix0);
  }

  lemma StepInto(job: Job, cs: seq<Config>, es: seq<Event>, i: nat)
    requires SucceededRun(job, cs, es) && 0 < i < |cs|
    ensures IsRun(job, cs, es) && |cs| == |es| + 1
    ensures Step(job, cs[i - 1], es[i - 1], cs[i])
  {
    assert Step(job, cs[i - 1], es[i - 1], cs[i - 1 + 1]);
  }

  lemma StepCounted(job: Job, s0: Store, ix0: Index, c: Config, e: Event, c': Config, es: seq<Event>)
    requires Possible(job, s0, ix0) && OnTrack(job, s0, ix0, c.store, c.proc) && Step(job, c, e, c')
    requires c'.proc.Finished? ==> c'.proc.err == Succeeded
    requires CountedAt(job, s0, ix0, c.proc, es)
    ensures CountedAt(job, s0, ix0, c'.proc, es + [e])
  {
    hide Possible, Counted, Rest, StoreAfter, PassTo, IsTrimmed;
    match c.proc
    case Ensure(_, d) =>
      if d < |job.wants| {
        EnsureCounted(job, s0, ix0, c, e, c', es);
      } else {
        Uncounted(job, s0, ix0, d, e, es);
      }
    case Write(_, _, _) => WriteCounted(job, s0, ix0, c, e, c', es);
    case Prune(_) => PruneCounted(job, s0, ix0, c, e, c', es);
    case Finished(_) =>
  }

  lemma {:induction false} AlwaysCounted(job: Job, cs: seq<Config>, es: seq<Event>, ix0: Index, i: nat)
    requires SucceededRun(job, cs, es) && ListedAs(cs, ix0) && Possible(job, cs[0].store, ix0) && 2 <= i < |cs|
    ensures CountedAt(job, cs[0].store, ix0, cs[i].proc, es[..i])
  {
    hide *;
    StepInto(job, cs, es, i);
    if i == 2 {
      CountedFirst(job, cs, es, ix0);
    } else {
      TakeOneMore(es, i);
      NotFailedBefore(job, cs, es, i);
      AlwaysCounted(job, cs, es, ix0, i - 1);
      AlwaysOnTrack(job, cs, es, ix0, i - 1);
      StepCounted(job, cs[0].store, ix0, cs[i - 1], es[i - 1], cs[i], es[..i - 1]);
    }
  }

  /** The writes of a successful run from any store: nothing is written twice or in vain. */
  lemma WritesByIndex(job: Job, cs: seq<Config>, es: seq<Event>) returns (ix0: Index)
    requires SucceededRun(job, cs, es)
    ensures ListedAs(cs, ix0) && Possible(job, cs[0].store, ix0)
    ensures Tally(es, Creates) == |Creating(job, cs[0].store, |job.wants|)|
    ensures Tally(es, Updates) == |Updating(job, ix0, |job.wants|)|
    ensures Tally(es, Deletes) == |Rest(job, ix0, |job.wants|)|
  {
    ix0 := EndState(job, cs, es);
    ListsFirst(job, cs, es);
    AlwaysCounted(job, cs, es, ix0, |es|);
    assert es[..|es|] == es;
  }
}
