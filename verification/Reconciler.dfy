/** The reconciliation protocol of one account, one API call per step.

A process lists the account's bindings, walks the wanted items creating, updating or keeping each
one and striking it from the index, then deletes what is left in the index.  The first failed call
ends it.  `done` counts the items already dealt with. */
module Reconciler {
  import opened Rbac
  import opened Api

  datatype Outcome = Succeeded | InternalError(message: string)

  datatype Proc =
    | ListCluster
    | ListNamespaced(index: Index)
    | Ensure(index: Index, done: nat)
    | Write(index: Index, done: nat, fetched: Binding)
    | Prune(index: Index)
    | Finished(err: Outcome)

  datatype Event = Local | Called(call: Call, fault: Fault, reply: Reply) {
    predicate Clean() {
      Called? ==> fault == NoFault
    }
  }

  datatype Config = Config(store: Store, proc: Proc)

  /** The filter on subjects, keeping the order of the listing. */
  function Mine(me: Subject, items: seq<Listed>): seq<Listed> {
    if items == [] then []
    else
      var rest := Mine(me, items[..|items| - 1]);
      var x := items[|items| - 1];
      if me in x.obj.subjects then rest + [x] else rest
  }

  /** The map by name; of two bindings with one name the later one wins. */
  function Indexed(items: seq<Listed>): Index {
    if items == [] then map[]
    else
      var x := items[|items| - 1];
      Indexed(items[..|items| - 1])[SlotOf(x.key) := x]
  }

  function FailureText(call: Call): string {
    match call
    case List(ClusterWide) => "failed to get cluster role bindings"
    case List(AllNamespaces) => "failed to get role bindings"
    case Create(Cluster(_), _) => "failed to create cluster role binding"
    case Create(Namespaced(_, _), _) => "failed to create role binding"
    case Delete(Cluster(_)) => "failed to delete cluster role binding"
    case Delete(Namespaced(_, _)) => "failed to delete role binding"
    case Get(Cluster(_)) => "failed to update cluster role binding"
    case Update(Cluster(_), _) => "failed to update cluster role binding"
    case _ => "failed to update role binding"
  }

  /** A step that needs no call: skip or keep an item, or move to the next phase. */
  predicate Moves(job: Job, p: Proc, p': Proc) {
    match p
    case Ensure(index, done) =>
      if done < |job.wants| then
        var w := job.wants[done];
        if !w.Supported() then p' == Ensure(index, done + 1)
        else
          && job.SlotFor(w) in index
          && job.Matches(w, index[job.SlotFor(w)].obj)
          && p' == Ensure(index - {job.SlotFor(w)}, done + 1)
      else
        done == |job.wants| && p' == Prune(index)
    case Prune(index) => index == map[] && p' == Finished(Succeeded)
    case _ => false
  }

  /** The calls a process may make next; only the order of deletions is left open. */
  predicate Issues(job: Job, p: Proc, call: Call) {
    match p
    case ListCluster => call == List(ClusterWide)
    case ListNamespaced(_) => call == List(AllNamespaces)
    case Ensure(index, done) =>
      && done < |job.wants|
      && var w := job.wants[done];
      && w.Supported()
      && (if job.SlotFor(w) !in index
          then call == Create(job.KeyFor(w), job.Ideal(w))
          else !job.Matches(w, index[job.SlotFor(w)].obj) && call == Get(job.KeyFor(w)))
    case Write(_, done, fetched) =>
      && done < |job.wants|
      && var w := job.wants[done];
      call == Update(job.KeyFor(w), job.Patch(w, fetched))
    case Prune(index) =>
      && call.Delete?
      && SlotOf(call.key) in index
      && index[SlotOf(call.key)].key == call.key
      && (call.key.Namespaced? ==> forall sl | sl in index :: sl.scope == AllNamespaces)
    case Finished(_) => false
  }

  /** The process after the reply to a call it issued. */
  function Resume(job: Job, p: Proc, call: Call, reply: Reply): Proc
    requires Issues(job, p, call)
  {
    if reply.Failed? then Finished(InternalError(FailureText(call)))
    else
      match p
      case ListCluster =>
        if reply.Items? then ListNamespaced(Indexed(Mine(job.Me(), reply.items))) else p
      case ListNamespaced(index) =>
        if reply.Items? then Ensure(index + Indexed(Mine(job.Me(), reply.items)), 0) else p
      case Ensure(index, done) =>
        if reply.Object? then Write(index, done, reply.obj)
        else Ensure(index - {job.SlotFor(job.wants[done])}, done + 1)
      case Write(index, done, _) => Ensure(index - {job.SlotFor(job.wants[done])}, done + 1)
      case Prune(index) => Prune(index - {SlotOf(call.key)})
  }

  ghost predicate Step(job: Job, c: Config, e: Event, c': Config) {
    match e
    case Local => c'.store == c.store && Moves(job, c.proc, c'.proc)
    case Called(call, fault, reply) =>
      && Issues(job, c.proc, call)
      && Served(c.store, call, fault, reply, c'.store)
      && c'.proc == Resume(job, c.proc, call, reply)
  }

  /** A run of the job with the store to itself; a crash is a run that stops early. */
  ghost predicate IsRun(job: Job, cs: seq<Config>, es: seq<Event>) {
    && |cs| == |es| + 1
    && cs[0].proc == ListCluster
    && (forall i | 0 <= i < |es| :: Step(job, cs[i], es[i], cs[i + 1]))
  }

  predicate AllClean(es: seq<Event>) {
    forall e | e in es :: e.Clean()
  }

  lemma MineMeaning(job: Job, items: seq<Listed>)
    ensures forall x :: x in Mine(job.Me(), items) <==> x in items && job.Me() in x.obj.subjects
  {
    if items != [] {
      MineMeaning(job, items[..|items| - 1]);
      assert items == items[..|items| - 1] + [items[|items| - 1]];
    }
  }

  lemma IndexedMeaning(items: seq<Listed>)
    ensures forall sl | sl in Indexed(items) :: Indexed(items)[sl] in items && SlotOf(Indexed(items)[sl].key) == sl
    ensures forall x | x in items :: SlotOf(x.key) in Indexed(items)
  {
    if items != [] {
      IndexedMeaning(items[..|items| - 1]);
      assert items == items[..|items| - 1] + [items[|items| - 1]];
    }
  }

  lemma Extend(job: Job, cs: seq<Config>, es: seq<Event>, e: Event, c: Config)
    requires IsRun(job, cs, es) && Step(job, cs[|es|], e, c)
    ensures IsRun(job, cs + [c], es + [e])
  {
    var cs', es' := cs + [c], es + [e];
    forall i | 0 <= i < |es'| ensures Step(job, cs'[i], es'[i], cs'[i + 1]) {
      if i < |es| {
        assert Step(job, cs[i], es[i], cs[i + 1]);
      }
    }
  }
}
