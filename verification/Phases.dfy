/** The order in which a run makes its calls, and how it ends. */
module Phases {
  import opened Rbac
  import opened Api
  import opened Reconciler
  import opened Convergence
  import opened Outcomes

  /** Two listings, then creates and updates, then deletes of ClusterRoleBindings, then of RoleBindings. */
  function Turn(call: Call): nat {
    match call
    case List(ClusterWide) => 0
    case List(AllNamespaces) => 1
    case Create(_, _) => 2
    case Get(_) => 2
    case Update(_, _) => 2
    case Delete(Cluster(_)) => 3
    case Delete(Namespaced(_, _)) => 4
  }

  function Phase(p: Proc): nat {
    match p
    case ListCluster => 0
    case ListNamespaced(_) => 1
    case Ensure(_, _) => 2
    case Write(_, _, _) => 2
    case Prune(ix) => if exists sl | sl in ix :: sl.scope == ClusterWide then 3 else 4
    case Finished(_) => 5
  }

  /** How many items are dealt with. */
  function Dealt(job: Job, p: Proc): nat {
    match p
    case ListCluster => 0
    case ListNamespaced(_) => 0
    case Ensure(_, d) => d
    case Write(_, d, _) => d
    case _ => |job.wants|
  }

  lemma StepForward(job: Job, c: Config, e: Event, c': Config)
    requires Step(job, c, e, c')
    requires c.proc.Ensure? || c.proc.Write? ==> c.proc.done <= |job.wants|
    ensures Phase(c.proc) <= Phase(c'.proc) && Dealt(job, c.proc) <= Dealt(job, c'.proc)
    ensures e.Called? ==> Turn(e.call) == Phase(c.proc)
    ensures e.Called? && e.call.List? ==> Phase(c.proc) < Phase(c'.proc)
    ensures c'.proc.Ensure? || c'.proc.Write? ==> c'.proc.done <= |job.wants|
  {
  }

  lemma {:induction false} OnlyForward(job: Job, cs: seq<Config>, es: seq<Event>, i: nat, j: nat)
    requires IsRun(job, cs, es) && i <= j < |cs|
    ensures Phase(cs[i].proc) <= Phase(cs[j].proc) && Dealt(job, cs[i].proc) <= Dealt(job, cs[j].proc)
    ensures cs[j].proc.Ensure? || cs[j].proc.Write? ==> cs[j].proc.done <= |job.wants|
    decreases j
  {
    hide Step, Phase, Dealt;
    if j > 0 {
      OnlyForward(job, cs, es, if i < j then i else i - 1, j - 1);
      assert Step(job, cs[j - 1], es[j - 1], cs[j - 1 + 1]);
      StepForward(job, cs[j - 1], es[j - 1], cs[j]);
    }
  }

  /** The calls of any run come in this order, each listing at most once. */
  lemma CallsInOrder(job: Job, cs: seq<Config>, es: seq<Event>, i: nat, j: nat)
    requires IsRun(job, cs, es) && i < j < |es| && es[i].Called? && es[j].Called?
    ensures Turn(es[i].call) <= Turn(es[j].call)
    ensures es[i].call.List? ==> Turn(es[i].call) < Turn(es[j].call)
  {
    hide Step, Phase, Dealt, Turn;
    assert Step(job, cs[i], es[i], cs[i + 1]) && Step(job, cs[j], es[j], cs[j + 1]);
    OnlyForward(job, cs, es, i, i);
    OnlyForward(job, cs, es, i + 1, j);
    StepForward(job, cs[i], es[i], cs[i + 1]);
    StepForward(job, cs[j], es[j], cs[j + 1]);
  }

  lemma StayedOnItem(job: Job, cs: seq<Config>, es: seq<Event>, i: nat)
    requires IsRun(job, cs, es) && i < |es| && es[i].Called? && Turn(es[i].call) == 2
    requires Dealt(job, cs[i].proc) == Dealt(job, cs[i + 1].proc) < |job.wants|
    ensures es[i].call.Get? && cs[i + 1].proc.Write?
  {
    assert Step(job, cs[i], es[i], cs[i + 1]);
  }

  /** A fetched object is written before anything else happens to the item. */
  lemma WriteStays(job: Job, cs: seq<Config>, es: seq<Event>, i: nat, j: nat)
    requires IsRun(job, cs, es) && i <= j < |es| && cs[i].proc.Write?
    requires Dealt(job, cs[i].proc) == Dealt(job, cs[j].proc) < |job.wants|
    ensures i == j && es[j].Called? && es[j].call.Update?
  {
    assert Step(job, cs[i], es[i], cs[i + 1]);
    if i < j {
      OnlyForward(job, cs, es, i, i);
      OnlyForward(job, cs, es, i + 1, j);
    }
  }

  /** Within one item an update follows a get. */
  lemma GetThenUpdate(job: Job, cs: seq<Config>, es: seq<Event>, i: nat, j: nat)
    requires IsRun(job, cs, es) && i < j < |es| && es[i].Called? && es[j].Called?
    requires Turn(es[i].call) == 2 && Turn(es[j].call) == 2
    requires Dealt(job, cs[i].proc) == Dealt(job, cs[j].proc) < |job.wants|
    ensures es[i].call.Get? && es[j].call.Update?
  {
    hide Dealt, Turn, Phase, Step;
    OnlyForward(job, cs, es, i + 1, j);
    OnlyForward(job, cs, es, i, i + 1);
    StayedOnItem(job, cs, es, i);
    WriteStays(job, cs, es, i + 1, j);
  }

  /** The calls for items are for their keys, and come in the order of the items. */
  lemma ItemsInOrder(job: Job, cs: seq<Config>, es: seq<Event>, i: nat, j: nat) returns (a: nat, b: nat)
    requires IsRun(job, cs, es) && i < j < |es| && es[i].Called? && es[j].Called?
    requires Turn(es[i].call) == 2 && Turn(es[j].call) == 2
    ensures a <= b < |job.wants|
    ensures es[i].call.key == job.KeyFor(job.wants[a]) && es[j].call.key == job.KeyFor(job.wants[b])
    ensures a == b ==> es[i].call.Get? && es[j].call.Update?
  {
    assert Step(job, cs[i], es[i], cs[i + 1]) && Step(job, cs[j], es[j], cs[j + 1]);
    OnlyForward(job, cs, es, i, i);
    OnlyForward(job, cs, es, i + 1, j);
    a, b := cs[i].proc.done, cs[j].proc.done;
    StepForward(job, cs[i], es[i], cs[i + 1]);
    if a == b {
      NotYetFinished(job, cs, es, i + 1);
      GetThenUpdate(job, cs, es, i, j);
    }
  }

  /** The message for the one call that failed. */
  function Told(call: Call): string {
    match call
    case List(ClusterWide) => "failed to get cluster role bindings"
    case List(AllNamespaces) => "failed to get role bindings"
    case Delete(Cluster(_)) => "failed to delete cluster role binding"
    case Delete(Namespaced(_, _)) => "failed to delete role binding"
    case Create(k, _) =>
      if k.Cluster? then "failed to create cluster role binding" else "failed to create role binding"
    case _ =>
      if call.key.Cluster? then "failed to update cluster role binding" else "failed to update role binding"
  }

  lemma StepEnds(job: Job, c: Config, e: Event, c': Config)
    requires Step(job, c, e, c')
    ensures e.Called? && e.reply.Failed? ==> c'.proc == Finished(InternalError(Told(e.call)))
    ensures c'.proc.Finished? && !(e.Called? && e.reply.Failed?) ==> c'.proc.err == Succeeded
  {
    hide Served;
  }

  /** The first call that fails ends the run, and nothing else makes it fail; the error names the call. */
  lemma FirstFailureEnds(job: Job, cs: seq<Config>, es: seq<Event>)
    requires CompleteRun(job, cs, es)
    ensures es != []
    ensures forall i | 0 <= i < |es| - 1 && es[i].Called? :: !es[i].reply.Failed?
    ensures var last := es[|es| - 1];
            if last.Called? && last.reply.Failed?
            then cs[|es|].proc.err == InternalError(Told(last.call))
            else cs[|es|].proc.err == Succeeded
  {
    hide Step, Told;
    forall i | 0 <= i < |es| - 1 && es[i].Called? ensures !es[i].reply.Failed? {
      assert Step(job, cs[i], es[i], cs[i + 1]);
      StepEnds(job, cs[i], es[i], cs[i + 1]);
      NotYetFinished(job, cs, es, i + 1);
    }
    var i := |es| - 1;
    assert Step(job, cs[i], es[i], cs[i + 1]);
    StepEnds(job, cs[i], es[i], cs[i + 1]);
  }
}
