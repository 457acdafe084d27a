/** Listings as sequences: writing one down, filtering and indexing it. */
module Listings {
  import opened Rbac
  import opened Reconciler

  ghost function Enumerate(s: Store, ks: set<Key>): (items: seq<Listed>)
    requires ks <= s.Keys
    ensures forall x :: x in items <==> x.key in ks && x.obj == s[x.key]
    ensures forall i, j | 0 <= i < j < |items| :: items[i].key != items[j].key
  {
    if ks == {} then []
    else
      var k :| k in ks;
      Enumerate(s, ks - {k}) + [Listed(k, s[k])]
  }

  lemma {:induction false} MineAppend(job: Job, a: seq<Listed>, b: seq<Listed>)
    ensures Mine(job.Me(), a + b) == Mine(job.Me(), a) + Mine(job.Me(), b)
  {
    if b == [] {
      assert a + b == a;
    } else {
      assert (a + b)[..|a + b| - 1] == a + b[..|b| - 1];
      MineAppend(job, a, b[..|b| - 1]);
    }
  }

  lemma {:induction false} MineTwice(job: Job, a: seq<Listed>)
    ensures Mine(job.Me(), Mine(job.Me(), a)) == Mine(job.Me(), a)
  {
    if a != [] {
      var front, x := a[..|a| - 1], a[|a| - 1];
      MineTwice(job, front);
      MineAppend(job, Mine(job.Me(), front), [x]);
    }
  }

  lemma {:induction false} MineApart(job: Job, a: seq<Listed>)
    requires forall i, j | 0 <= i < j < |a| :: a[i].key != a[j].key
    ensures forall i, j | 0 <= i < j < |Mine(job.Me(), a)| :: Mine(job.Me(), a)[i].key != Mine(job.Me(), a)[j].key
  {
    if a != [] {
      var front := a[..|a| - 1];
      MineApart(job, front);
      MineMeaning(job, front);
      forall x | x in Mine(job.Me(), front) ensures x.key != a[|a| - 1].key {
        assert x in front;
      }
    }
  }

  lemma {:induction false} MineNone(job: Job, a: seq<Listed>)
    requires forall x | x in a :: job.Me() !in x.obj.subjects
    ensures Mine(job.Me(), a) == []
  {
    if a != [] {
      assert a[|a| - 1] in a;
      MineNone(job, a[..|a| - 1]);
    }
  }

  lemma ApartConcat(a: seq<Listed>, b: seq<Listed>)
    requires forall i, j | 0 <= i < j < |a| :: a[i].key != a[j].key
    requires forall i, j | 0 <= i < j < |b| :: b[i].key != b[j].key
    requires forall x, y | x in a && y in b :: x.key != y.key
    ensures forall i, j | 0 <= i < j < |a + b| :: (a + b)[i].key != (a + b)[j].key
  {
    forall i, j | 0 <= i < j < |a + b| ensures (a + b)[i].key != (a + b)[j].key {
      if i < |a| && j >= |a| {
        assert a[i] in a && b[j - |a|] in b;
      }
    }
  }

  lemma {:induction false} MineAll(job: Job, a: seq<Listed>)
    requires forall x | x in a :: job.Me() in x.obj.subjects
    ensures Mine(job.Me(), a) == a
  {
    if a != [] {
      assert a[|a| - 1] in a;
      MineAll(job, a[..|a| - 1]);
      assert a == a[..|a| - 1] + [a[|a| - 1]];
    }
  }

  lemma {:induction false} IndexedAppend(a: seq<Listed>, b: seq<Listed>)
    ensures Indexed(a + b) == Indexed(a) + Indexed(b)
  {
    if b == [] {
      assert a + b == a;
    } else {
      var x := b[|b| - 1];
      assert (a + b)[..|a + b| - 1] == a + b[..|b| - 1];
      IndexedAppend(a, b[..|b| - 1]);
    }
  }
}
