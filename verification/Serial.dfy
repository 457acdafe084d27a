/** Requests for different accounts serialise: whatever the interleaving, each one ends as some run
of it alone ends, with the same calls and the same faults. */
module Serial {
  import opened Names
  import opened Rbac
  import opened Api
  import opened Reconciler
  import opened Listings
  import opened Convergence
  import opened Goals
  import opened Interleaving

  /** The steps of one process. */
  function Own(ms: seq<Move>, who: nat): seq<Event> {
    if ms == [] then []
    else
      var rest := Own(ms[..|ms| - 1], who);
      if ms[|ms| - 1].who == who then rest + [ms[|ms| - 1].event] else rest
  }

  /** An event without the contents of a listing: the call made, the fault met, the other replies. */
  function Outline(e: Event): Event {
    if e.Called? && e.reply.Items? then e.(reply := Items([])) else e
  }

  predicate SameOutline(es: seq<Event>, fs: seq<Event>) {
    |es| == |fs| && forall i | 0 <= i < |es| :: Outline(es[i]) == Outline(fs[i])
  }

  /** What the filter keeps of a listing is held, with the same contents, in any store that agrees. */
  lemma MineElsewhere(job: Job, s: Store, t: Store, scope: Scope, items: seq<Listed>)
    requires ColonFree(job.user) && Tidy(s, job.home) && Tidy(t, job.home) && Agree(job.user, s, t)
    requires IsListing(s, scope, items)
    ensures forall x :: x in Mine(job.Me(), items)
              <==> x.key in Held(job, t) && ScopeOf(x.key) == scope && x.obj == t[x.key]
  {
    hide Mine, Tidy;
    MineMeaning(job, items);
    forall x ensures x in Mine(job.Me(), items)
               <==> x.key in Held(job, t) && ScopeOf(x.key) == scope && x.obj == t[x.key]
    {
      if x in Mine(job.Me(), items) {
        OwnedNameBelongs(job, s, x.key);
        assert Same(s, t, x.key);
      }
      if x.key in Held(job, t) && ScopeOf(x.key) == scope && x.obj == t[x.key] {
        OwnedNameBelongs(job, t, x.key);
        assert Same(s, t, x.key);
        assert Listed(x.key, s[x.key]) in items;
      }
    }
  }

  /** A listing in two parts: what the account holds, and the rest. */
  lemma ListingInParts(job: Job, t: Store, scope: Scope, mine: seq<Listed>, rest: seq<Listed>)
    requires forall i, j | 0 <= i < j < |mine| :: mine[i].key != mine[j].key
    requires forall i, j | 0 <= i < j < |rest| :: rest[i].key != rest[j].key
    requires forall x :: x in mine <==> x.key in Held(job, t) && ScopeOf(x.key) == scope && x.obj == t[x.key]
    requires forall x :: x in rest
               <==> (&& x.key in t && ScopeOf(x.key) == scope && t[x.key].managed
                     && x.key !in Held(job, t) && x.obj == t[x.key])
    ensures IsListing(t, scope, mine + rest)
  {
    ApartConcat(mine, rest);
    forall k | k in t && ScopeOf(k) == scope && t[k].managed ensures Listed(k, t[k]) in mine + rest {
      assert Listed(k, t[k]) in if k in Held(job, t) then mine else rest;
    }
  }

  /** A listing of another store that agrees on the account's block filters to the same bindings. */
  lemma Relist(job: Job, s: Store, t: Store, scope: Scope, items: seq<Listed>) returns (other: seq<Listed>)
    requires ColonFree(job.user) && Tidy(s, job.home) && Tidy(t, job.home) && Agree(job.user, s, t)
    requires IsListing(s, scope, items)
    ensures IsListing(t, scope, other) && Mine(job.Me(), other) == Mine(job.Me(), items)
  {
    var mine := Mine(job.Me(), items);
    var strange := set k | k in t && ScopeOf(k) == scope && t[k].managed && k !in Held(job, t);
    var rest := Enumerate(t, strange);
    other := mine + rest;
    MineApart(job, items);
    hide Mine, Tidy, Agree, IsListing, Enumerate;
    MineAppend(job, mine, rest);
    MineTwice(job, items);
    MineNone(job, rest);
    MineElsewhere(job, s, t, scope, items);
    ListingInParts(job, t, scope, mine, rest);
  }

  /** A call on a key of the account's block is answered alike by both stores. */
  lemma SameAnswer(user: string, s: Store, t: Store, call: Call, fault: Fault, reply: Reply, s': Store)
    returns (t': Store)
    requires Agree(user, s, t) && !call.List? && Belongs(call.key.name, user)
    requires Served(s, call, fault, reply, s')
    ensures Served(t, call, fault, reply, t') && Agree(user, s', t')
    ensures forall k: Key | !Belongs(k.name, user) :: Same(t, t', k)
  {
    assert Same(s, t, call.key);
    t' := if fault.Dropped? then t else Effect(t, call);
    forall k: Key | Belongs(k.name, user) ensures Same(s', t', k) {
      assert Same(s, t, k);
    }
  }

  /** A step on one store can be taken on any other that agrees on the account's block. */
  lemma Mirror(job: Job, c: Config, e: Event, c': Config, t: Store) returns (f: Event, t': Store)
    requires ColonFree(job.user) && ProcOwn(job, c.proc)
    requires Tidy(c.store, job.home) && Tidy(t, job.home) && Agree(job.user, c.store, t)
    requires Step(job, c, e, c')
    ensures Step(job, Config(t, c.proc), f, Config(t', c'.proc)) && Outline(f) == Outline(e)
    ensures Agree(job.user, c'.store, t')
    ensures forall k: Key | !Belongs(k.name, job.user) :: Same(t, t', k)
  {
    f, t' := e, t;
    if e.Called? {
      if !e.call.List? {
        CallsOwn(job, c.proc, e.call);
        t' := SameAnswer(job.user, c.store, t, e.call, e.fault, e.reply, c'.store);
      } else if e.fault == NoFault {
        var other := Relist(job, c.store, t, e.call.scope, e.reply.items);
        f := e.(reply := Items(other));
      }
    }
  }

  lemma AgreeTransitive(user: string, r: Store, s: Store, t: Store)
    requires Agree(user, s, r) && Agree(user, s, t)
    ensures Agree(user, r, t)
  {
    forall k: Key | Belongs(k.name, user) ensures Same(r, t, k) {
      assert Same(s, r, k) && Same(s, t, k);
    }
  }

  lemma HeldAgree(job: Job, s: Store, t: Store)
    requires ColonFree(job.user) && Tidy(s, job.home) && Tidy(t, job.home) && Agree(job.user, s, t)
    ensures Held(job, s) == Held(job, t)
  {
    forall k ensures k in Held(job, s) <==> k in Held(job, t) {
      if k in Held(job, s) {
        OwnedNameBelongs(job, s, k);
        assert Same(s, t, k);
      }
      if k in Held(job, t) {
        OwnedNameBelongs(job, t, k);
        assert Same(s, t, k);
      }
    }
  }

  lemma {:induction false} SoloTidy(job: Job, cs: seq<Config>, es: seq<Event>, i: nat)
    requires IsRun(job, cs, es) && i < |cs| && ColonFree(job.user) && Tidy(cs[0].store, job.home)
    ensures Tidy(cs[i].store, job.home) && ProcOwn(job, cs[i].proc)
  {
    if i > 0 {
      SoloTidy(job, cs, es, i - 1);
      assert Step(job, cs[i - 1], es[i - 1], cs[i - 1 + 1]);
      StepOwn(job, cs[i - 1], es[i - 1], cs[i]);
    }
  }

  /** Concurrent requests for distinct accounts serialise. */
  lemma {:induction false} Serialises(jobs: seq<Job>, home: string, hs: seq<Sys>, ms: seq<Move>, i: nat, t: nat)
    returns (cs: seq<Config>, es: seq<Event>)
    requires IsHistory(jobs, hs, ms) && OneService(jobs, home) && Tidy(hs[0].store, home)
    requires i < |jobs| && t < |hs|
    requires forall j | 0 <= j < |jobs| && j != i :: jobs[j].user != jobs[i].user
    ensures |hs[t].procs| == |jobs|
    ensures IsRun(jobs[i], cs, es) && cs[0].store == hs[0].store
    ensures cs[|es|].proc == hs[t].procs[i]
    ensures SameOutline(es, Own(ms[..t], i))
    ensures Agree(jobs[i].user, hs[t].store, cs[|es|].store)
    ensures Held(jobs[i], hs[t].store) == Held(jobs[i], cs[|es|].store)
    ensures forall k: Key | !Belongs(k.name, jobs[i].user) :: Same(hs[0].store, cs[|es|].store, k)
  {
    var job := jobs[i];
    AlwaysOwn(jobs, home, hs, ms, t);
    if t == 0 {
      cs, es := [Config(hs[0].store, ListCluster)], [];
    } else {
      cs, es := Serialises(jobs, home, hs, ms, i, t - 1);
      AlwaysOwn(jobs, home, hs, ms, t - 1);
      var a, m, b := hs[t - 1], ms[t - 1], hs[t];
      assert SysStep(jobs, a, m, hs[t - 1 + 1]);
      assert ms[..t][..t - 1] == ms[..t - 1];
      SoloTidy(job, cs, es, |es|);
      if m.who == i {
        var f, t' := Mirror(job, Config(a.store, a.procs[i]), m.event, Config(b.store, b.procs[i]), cs[|es|].store);
        Extend(job, cs, es, f, Config(t', b.procs[i]));
        cs, es := cs + [Config(t', b.procs[i])], es + [f];
      } else {
        OthersUntouched(jobs, home, hs, ms, t - 1, job.user);
        AgreeTransitive(job.user, b.store, a.store, cs[|es|].store);
      }
      SoloTidy(job, cs, es, |es|);
    }
    HeldAgree(job, hs[t].store, cs[|es|].store);
  }

  /** A request that reports success has converged its account's ClusterRoleBindings, whatever the
      requests for other accounts do meanwhile or later. */
  lemma ConcurrentConvergence(jobs: seq<Job>, home: string, hs: seq<Sys>, ms: seq<Move>, i: nat, t: nat)
    requires IsHistory(jobs, hs, ms) && OneService(jobs, home) && Tidy(hs[0].store, home)
    requires i < |jobs| && t < |hs|
    requires forall j | 0 <= j < |jobs| && j != i :: jobs[j].user != jobs[i].user
    requires i < |hs[t].procs| && hs[t].procs[i] == Finished(Succeeded)
    ensures ClusterExact(jobs[i], hs[t].store)
  {
    var cs, es := Serialises(jobs, home, hs, ms, i, t);
    var s, s' := hs[t].store, cs[|es|].store;
    ClusterConvergence(jobs[i], cs, es);
    forall w | w in jobs[i].wants && w.item.kind == CLUSTER_ROLE
      ensures jobs[i].KeyFor(w) in s && s[jobs[i].KeyFor(w)] == s'[jobs[i].KeyFor(w)]
    {
      WantedNameBelongs(jobs[i], w);
      assert Same(s, s', jobs[i].KeyFor(w));
    }
  }

  /** A request that meets no fault ends, in its account's block, in the very goal it has alone. */
  lemma ConcurrentGoal(jobs: seq<Job>, home: string, hs: seq<Sys>, ms: seq<Move>, i: nat, t: nat)
    requires IsHistory(jobs, hs, ms) && OneService(jobs, home) && Tidy(hs[0].store, home)
    requires i < |jobs| && t < |hs|
    requires forall j | 0 <= j < |jobs| && j != i :: jobs[j].user != jobs[i].user
    requires i < |hs[t].procs| && hs[t].procs[i].Finished? && AllClean(Own(ms[..t], i))
    requires Ready(jobs[i], hs[0].store)
    ensures hs[t].procs[i] == Finished(Succeeded)
    ensures Agree(jobs[i].user, hs[t].store, Goal(jobs[i], hs[0].store))
  {
    var cs, es := Serialises(jobs, home, hs, ms, i, t);
    forall e | e in es ensures e.Clean() {
      var x :| 0 <= x < |es| && es[x] == e;
      assert Outline(es[x]) == Outline(Own(ms[..t], i)[x]);
      assert Own(ms[..t], i)[x] in Own(ms[..t], i);
    }
    ReachesGoal(jobs[i], cs, es);
  }
}
