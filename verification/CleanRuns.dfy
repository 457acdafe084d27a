/** From every store, for every job, there is a complete fault-free run, whatever of several bindings
of one name the listings put last. */
module CleanRuns {
  import opened Wrappers
  import opened Rbac
  import opened Api
  import opened Reconciler
  import opened Listings
  import opened Convergence
  import opened Outcomes

  /** The index that lists copies in `preferred` last. */
  ghost function Choose(copies: set<Key>, preferred: set<Key>): (k: Key)
    requires copies != {}
    ensures k in copies && (copies * preferred != {} ==> k in preferred)
  {
    var k :| k in (if copies * preferred != {} then copies * preferred else copies);
    k
  }

  ghost function IndexWith(job: Job, s0: Store, preferred: set<Key>): (ix0: Index)
    ensures forall sl :: sl in ix0 <==> Copies(job, s0, sl) != {}
    ensures forall sl | sl in ix0 ::
              var k := Choose(Copies(job, s0, sl), preferred);
              k in s0 && ix0[sl] == Listed(k, s0[k])
    ensures Possible(job, s0, ix0)
  {
    var slots := set k | k in Held(job, s0) :: SlotOf(k);
    assert forall sl :: sl in slots <==> Copies(job, s0, sl) != {} by {
      forall sl ensures sl in slots <==> Copies(job, s0, sl) != {} {
        if sl in slots {
          var k :| k in Held(job, s0) && SlotOf(k) == sl;
          assert k in Copies(job, s0, sl);
        }
        if Copies(job, s0, sl) != {} {
          var k :| k in Copies(job, s0, sl);
        }
      }
    }
    map sl | sl in slots :: var k := Choose(Copies(job, s0, sl), preferred); Listed(k, s0[k])
  }

  function InScope(ix0: Index, scope: Scope): Index {
    map sl | sl in ix0 && sl.scope == scope :: ix0[sl]
  }

  lemma ListingInTwo(s: Store, scope: Scope, last: set<Key>, a: seq<Listed>, b: seq<Listed>)
    requires forall x :: x in a
               <==> (&& x.key in s && ScopeOf(x.key) == scope && s[x.key].managed
                     && x.key !in last && x.obj == s[x.key])
    requires forall x :: x in b <==> x.key in last && x.key in s && x.obj == s[x.key]
    requires forall k | k in last :: k in s && ScopeOf(k) == scope && s[k].managed
    requires forall i, j | 0 <= i < j < |a| :: a[i].key != a[j].key
    requires forall i, j | 0 <= i < j < |b| :: b[i].key != b[j].key
    ensures IsListing(s, scope, a + b)
  {
    ApartConcat(a, b);
    forall k | k in s && ScopeOf(k) == scope && s[k].managed ensures Listed(k, s[k]) in a + b {
      assert Listed(k, s[k]) in if k in last then b else a;
    }
  }

  lemma IndexedLast(job: Job, s0: Store, ix0: Index, scope: Scope, a: seq<Listed>, b: seq<Listed>)
    requires Possible(job, s0, ix0)
    requires forall x | x in a :: x.key in Held(job, s0) && ScopeOf(x.key) == scope
    requires forall x :: x in b <==> SlotOf(x.key) in InScope(ix0, scope) && x == ix0[SlotOf(x.key)]
    ensures Indexed(a) + Indexed(b) == InScope(ix0, scope)
  {
    var part := InScope(ix0, scope);
    IndexedMeaning(a);
    IndexedMeaning(b);
    forall sl ensures sl in Indexed(b) <==> sl in part {
      if sl in part {
        assert part[sl] in b;
      }
    }
    assert Indexed(b) == part;
    forall sl | sl in Indexed(a) ensures sl in part {
      assert Indexed(a)[sl] in a;
    }
  }

  /** An order of the listing that yields the index: the bindings to index come last. */
  lemma ListingFor(job: Job, s0: Store, ix0: Index, scope: Scope) returns (items: seq<Listed>)
    requires Possible(job, s0, ix0)
    ensures IsListing(s0, scope, items) && Indexed(Mine(job.Me(), items)) == InScope(ix0, scope)
  {
    var last := set sl | sl in InScope(ix0, scope) :: ix0[sl].key;
    var first := set k | k in s0 && ScopeOf(k) == scope && s0[k].managed && k !in last;
    var a, b := Enumerate(s0, first), Enumerate(s0, last);
    items := a + b;
    ListingInTwo(s0, scope, last, a, b);
    MineAppend(job, a, b);
    MineAll(job, b);
    IndexedAppend(Mine(job.Me(), a), b);
    MineMeaning(job, a);
    hide Enumerate, IsListing, Mine;
    IndexedLast(job, s0, ix0, scope, Mine(job.Me(), a), b);
  }

  predicate WellSlotted(ix: Index) {
    forall sl | sl in ix :: SlotOf(ix[sl].key) == sl
  }

  predicate UnderWay(job: Job, p: Proc) {
    match p
    case Ensure(ix, d) => WellSlotted(ix) && d <= |job.wants|
    case Write(ix, d, _) => WellSlotted(ix) && d < |job.wants|
    case Prune(ix) => WellSlotted(ix)
    case Finished(_) => true
    case _ => false
  }

  function StepsLeft(job: Job, p: Proc): nat
    requires UnderWay(job, p)
  {
    match p
    case Ensure(ix, d) => 2 + |ix| + 2 * (|job.wants| - d)
    case Write(ix, d, _) => 1 + |ix| + 2 * (|job.wants| - d)
    case Prune(ix) => 1 + |ix|
    case Finished(_) => 0
  }

  lemma StruckSmaller(ix: Index, sl: Slot)
    ensures |ix - {sl}| <= |ix| && (sl in ix ==> |ix - {sl}| < |ix|)
  {
    var less := ix - {sl};
    if sl in ix {
      assert less[sl := ix[sl]] == ix;
    } else {
      assert less == ix;
    }
  }

  /** The reply of a server that does not fault. */
  function Answer(s: Store, call: Call): (reply: Reply)
    requires !call.List?
    ensures Answers(s, call, reply)
  {
    match call
    case Create(k, _) => if k in s then Failed(AlreadyExists) else Done
    case Get(k) => if k in s then Object(s[k]) else Failed(NotFound)
    case Update(k, _) => if k in s then Done else Failed(NotFound)
    case Delete(k) => if k in s then Done else Failed(NotFound)
  }

  lemma NextCall(job: Job, p: Proc) returns (e: Option<Call>, p': Proc)
    requires UnderWay(job, p) && !p.Finished?
    ensures e.None? ==> Moves(job, p, p') && UnderWay(job, p') && StepsLeft(job, p') < StepsLeft(job, p)
    ensures e.Some? ==> Issues(job, p, e.value) && !e.value.List?
  {
    e, p' := None, p;
    match p
    case Ensure(ix, d) =>
      if d < |job.wants| {
        var w := job.wants[d];
        StruckSmaller(ix, job.SlotFor(w));
        if !w.Supported() {
          p' := Ensure(ix, d + 1);
        } else if job.SlotFor(w) !in ix {
          e := Some(Create(job.KeyFor(w), job.Ideal(w)));
        } else if job.Matches(w, ix[job.SlotFor(w)].obj) {
          p' := Ensure(ix - {job.SlotFor(w)}, d + 1);
        } else {
          e := Some(Get(job.KeyFor(w)));
        }
      } else {
        p' := Prune(ix);
      }
    case Write(_, d, fetched) =>
      e := Some(Update(job.KeyFor(job.wants[d]), job.Patch(job.wants[d], fetched)));
    case Prune(ix) =>
      if ix == map[] {
        p' := Finished(Succeeded);
      } else if sl :| sl in ix && sl.scope == ClusterWide {
        e := Some(Delete(ix[sl].key));
      } else {
        var sl :| sl in ix;
        e := Some(Delete(ix[sl].key));
      }
  }

  lemma AfterCall(job: Job, p: Proc, call: Call, reply: Reply)
    requires UnderWay(job, p) && Issues(job, p, call)
    ensures var p' := Resume(job, p, call, reply);
            UnderWay(job, p') && StepsLeft(job, p') < StepsLeft(job, p)
  {
    match p
    case Ensure(ix, d) => StruckSmaller(ix, job.SlotFor(job.wants[d]));
    case Write(ix, d, _) => StruckSmaller(ix, job.SlotFor(job.wants[d]));
    case Prune(ix) => StruckSmaller(ix, SlotOf(call.key));
  }

  lemma Progress(job: Job, c: Config) returns (e: Event, c': Config)
    requires UnderWay(job, c.proc) && !c.proc.Finished?
    ensures Step(job, c, e, c') && e.Clean()
    ensures UnderWay(job, c'.proc) && StepsLeft(job, c'.proc) < StepsLeft(job, c.proc)
  {
    var call, p' := NextCall(job, c.proc);
    if call.None? {
      e, c' := Local, Config(c.store, p');
    } else {
      hide UnderWay, StepsLeft, Issues;
      var reply := Answer(c.store, call.value);
      AfterCall(job, c.proc, call.value, reply);
      e := Called(call.value, NoFault, reply);
      c' := Config(Effect(c.store, call.value), Resume(job, c.proc, call.value, reply));
    }
  }

  lemma RunLength(job: Job, cs: seq<Config>, es: seq<Event>)
    requires IsRun(job, cs, es)
    ensures |cs| == |es| + 1
  {
  }

  lemma {:induction false} Finish(job: Job, cs: seq<Config>, es: seq<Event>) returns (cs': seq<Config>, es': seq<Event>)
    requires IsRun(job, cs, es) && AllClean(es) && UnderWay(job, cs[|es|].proc)
    ensures CompleteRun(job, cs', es') && AllClean(es') && cs <= cs'
    decreases StepsLeft(job, cs[|es|].proc)
  {
    if cs[|es|].proc.Finished? {
      cs', es' := cs, es;
    } else {
      hide IsRun, UnderWay, StepsLeft;
      var e, c := Progress(job, cs[|es|]);
      assert |cs| == |es| + 1 by {
        RunLength(job, cs, es);
      }
      Extend(job, cs, es, e, c);
      cs', es' := Finish(job, cs + [c], es + [e]);
    }
  }

  ghost predicate CleanRunFrom(job: Job, s0: Store, cs: seq<Config>, es: seq<Event>) {
    CompleteRun(job, cs, es) && AllClean(es) && cs[0].store == s0
  }

  /** From every store, for every job and every index the listings can produce, there is a complete
      fault-free run. */
  lemma CleanRun(job: Job, s0: Store, ix0: Index) returns (cs: seq<Config>, es: seq<Event>)
    requires Possible(job, s0, ix0)
    ensures CleanRunFrom(job, s0, cs, es) && ListedAs(cs, ix0)
  {
    var cluster := ListingFor(job, s0, ix0, ClusterWide);
    var roles := ListingFor(job, s0, ix0, AllNamespaces);
    var e1 := Called(List(ClusterWide), NoFault, Items(cluster));
    var e2 := Called(List(AllNamespaces), NoFault, Items(roles));
    var c0, c1 := Config(s0, ListCluster), Config(s0, ListNamespaced(InScope(ix0, ClusterWide)));
    var c2 := Config(s0, Ensure(ix0, 0));
    assert InScope(ix0, ClusterWide) + InScope(ix0, AllNamespaces) == ix0;
    assert Step(job, c0, e1, c1) && Step(job, c1, e2, c2);
    cs, es := Finish(job, [c0, c1, c2], [e1, e2]);
    assert cs[0] == c0 && cs[2] == c2;
  }

  lemma CleanRunExists(job: Job, s0: Store) returns (cs: seq<Config>, es: seq<Event>)
    ensures CleanRunFrom(job, s0, cs, es)
  {
    cs, es := CleanRun(job, s0, IndexWith(job, s0, {}));
  }
}
