/** From the LdapGroupBindings to the items of a job. */
module Wanted {
  import opened Names
  import opened Rbac

  /** The bindings for one of the user's groups, in the order of the list. */
  function UserBindings(bs: seq<LdapGroupBinding>, groups: set<string>): seq<LdapGroupBinding> {
    if bs == [] then []
    else
      var rest, b := UserBindings(bs[..|bs| - 1], groups), bs[|bs| - 1];
      if b.groupDN in groups then rest + [b] else rest
  }

  function Tagged(group: string, items: seq<Item>): (ws: seq<Want>)
    ensures |ws| == |items|
  {
    if items == [] then [] else Tagged(group, items[..|items| - 1]) + [Want(group, items[|items| - 1])]
  }

  function ItemsOf(b: LdapGroupBinding): seq<Want> {
    Tagged(b.name, b.items)
  }

  /** The items of all the bindings, in the order of the nested loops. */
  function WantsOf(bs: seq<LdapGroupBinding>): seq<Want> {
    if bs == [] then [] else WantsOf(bs[..|bs| - 1]) + ItemsOf(bs[|bs| - 1])
  }

  lemma {:induction false} TaggedIndex(group: string, items: seq<Item>, i: nat)
    requires i < |items|
    ensures Tagged(group, items)[i] == Want(group, items[i])
  {
    if i < |items| - 1 {
      TaggedIndex(group, items[..|items| - 1], i);
    }
  }

  lemma {:induction false} TaggedMeaning(group: string, items: seq<Item>, w: Want)
    ensures w in Tagged(group, items) <==> w.group == group && w.item in items
  {
    if items != [] {
      TaggedMeaning(group, items[..|items| - 1], w);
      assert items == items[..|items| - 1] + [items[|items| - 1]];
    }
  }

  lemma Associative<T>(a: seq<T>, b: seq<T>, c: seq<T>)
    ensures (a + b) + c == a + (b + c)
  {
  }

  lemma WantsSnoc(front: seq<LdapGroupBinding>, last: LdapGroupBinding)
    ensures WantsOf(front + [last]) == WantsOf(front) + ItemsOf(last)
  {
    hide ItemsOf;
    assert (front + [last])[..|front|] == front;
  }

  lemma {:induction false} WantsConcat(a: seq<LdapGroupBinding>, b: seq<LdapGroupBinding>)
    ensures WantsOf(a + b) == WantsOf(a) + WantsOf(b)
  {
    if b == [] {
      assert a + b == a;
    } else {
      var front, last := b[..|b| - 1], b[|b| - 1];
      hide *;
      WantsConcat(a, front);
      WantsSnoc(front, last);
      WantsSnoc(a + front, last);
      Associative(a, front, [last]);
      Associative(WantsOf(a), WantsOf(front), ItemsOf(last));
      assert front + [last] == b;
    }
  }

  lemma WantsNext(bs: seq<LdapGroupBinding>, i: nat)
    requires i < |bs|
    ensures WantsOf(bs[..i + 1]) == WantsOf(bs[..i]) + ItemsOf(bs[i])
  {
    WantsSnoc(bs[..i], bs[i]);
    hide *;
    assert bs[..i + 1] == bs[..i] + [bs[i]];
  }

  lemma WantsSplit(bs: seq<LdapGroupBinding>, i: nat)
    requires i < |bs|
    ensures WantsOf(bs) == WantsOf(bs[..i]) + ItemsOf(bs[i]) + WantsOf(bs[i + 1..])
  {
    hide *;
    WantsNext(bs, i);
    var front, back := bs[..i + 1], bs[i + 1..];
    WantsConcat(front, back);
    assert front + back == bs;
  }

  /** Where item `k` of binding `i` stands. */
  lemma WantsIndex(bs: seq<LdapGroupBinding>, i: nat, k: nat)
    requires i < |bs| && k < |bs[i].items|
    ensures |WantsOf(bs[..i + 1])| == |WantsOf(bs[..i])| + |bs[i].items| <= |WantsOf(bs)|
    ensures WantsOf(bs)[|WantsOf(bs[..i])| + k] == Want(bs[i].name, bs[i].items[k])
  {
    WantsSplit(bs, i);
    WantsNext(bs, i);
    TaggedIndex(bs[i].name, bs[i].items, k);
  }

  lemma {:induction false} WantsMeaning(bs: seq<LdapGroupBinding>, w: Want)
    ensures w in WantsOf(bs) <==> exists b :: b in bs && b.name == w.group && w.item in b.items
  {
    if bs != [] {
      var front, last := bs[..|bs| - 1], bs[|bs| - 1];
      WantsMeaning(front, w);
      assert bs == front + [last];
      TaggedMeaning(last.name, last.items, w);
      if w in WantsOf(bs) {
        if w in WantsOf(front) {
          var b :| b in front && b.name == w.group && w.item in b.items;
          assert b in bs;
        } else {
          assert last in bs;
        }
      }
    }
  }

  lemma {:induction false} UserBindingsMeaning(bs: seq<LdapGroupBinding>, groups: set<string>)
    ensures forall b :: b in UserBindings(bs, groups) <==> b in bs && b.groupDN in groups
  {
    if bs != [] {
      UserBindingsMeaning(bs[..|bs| - 1], groups);
      assert bs == bs[..|bs| - 1] + [bs[|bs| - 1]];
    }
  }

  /** The filter keeps the order of the list, and every occurrence. */
  lemma {:induction false} UserBindingsConcat(a: seq<LdapGroupBinding>, b: seq<LdapGroupBinding>, groups: set<string>)
    ensures UserBindings(a + b, groups) == UserBindings(a, groups) + UserBindings(b, groups)
  {
    if b == [] {
      assert a + b == a;
    } else {
      var front := b[..|b| - 1];
      assert (a + b)[..|a + b| - 1] == a + front;
      UserBindingsConcat(a, front, groups);
    }
  }

  lemma {:induction false} UserBindingsAll(bs: seq<LdapGroupBinding>, groups: set<string>)
    requires forall b | b in bs :: b.groupDN in groups
    ensures UserBindings(bs, groups) == bs
  {
    if bs != [] {
      assert bs[|bs| - 1] in bs;
      UserBindingsAll(bs[..|bs| - 1], groups);
      assert bs == bs[..|bs| - 1] + [bs[|bs| - 1]];
    }
  }

  lemma {:induction false} UserBindingsNone(bs: seq<LdapGroupBinding>, groups: set<string>)
    requires forall b | b in bs :: b.groupDN !in groups
    ensures UserBindings(bs, groups) == []
  {
    if bs != [] {
      assert bs[|bs| - 1] in bs;
      UserBindingsNone(bs[..|bs| - 1], groups);
    }
  }

  /** The ClusterRoleBindings a user is to hold, straight from the list of bindings. */
  ghost predicate GrantedBy(user: string, bs: seq<LdapGroupBinding>, groups: set<string>, k: Key) {
    exists b, it ::
      b in bs && b.groupDN in groups && it in b.items && it.kind == "ClusterRole"
      && k == Cluster(GenBindingName(user, it.name, b.name))
  }

  /** The RoleBindings, likewise: only items with a namespace count. */
  ghost predicate GrantedIn(user: string, bs: seq<LdapGroupBinding>, groups: set<string>, k: Key) {
    exists b, it ::
      b in bs && b.groupDN in groups && it in b.items && it.kind == "Role" && it.ns != ""
      && k == Namespaced(it.ns, GenBindingName(user, it.name, b.name))
  }

  lemma TargetsAreGranted(user: string, home: string, bs: seq<LdapGroupBinding>, groups: set<string>, k: Key)
    ensures k in Targets(Job(user, home, WantsOf(UserBindings(bs, groups))))
            <==> GrantedBy(user, bs, groups, k) || GrantedIn(user, bs, groups, k)
  {
    var mine := UserBindings(bs, groups);
    var job := Job(user, home, WantsOf(mine));
    UserBindingsMeaning(bs, groups);
    if k in Targets(job) {
      var w :| w in job.wants && w.Supported() && job.KeyFor(w) == k;
      WantsMeaning(mine, w);
      var b :| b in mine && b.name == w.group && w.item in b.items;
      assert b in bs && w.item in b.items && k.name == GenBindingName(user, w.item.name, b.name);
    }
    if GrantedBy(user, bs, groups, k) {
      var b, it :| b in bs && b.groupDN in groups && it in b.items && it.kind == "ClusterRole"
        && k == Cluster(GenBindingName(user, it.name, b.name));
      WantsMeaning(mine, Want(b.name, it));
      assert job.KeyFor(Want(b.name, it)) == k;
    }
    if GrantedIn(user, bs, groups, k) {
      var b, it :| b in bs && b.groupDN in groups && it in b.items && it.kind == "Role" && it.ns != ""
        && k == Namespaced(it.ns, GenBindingName(user, it.name, b.name));
      WantsMeaning(mine, Want(b.name, it));
      assert job.KeyFor(Want(b.name, it)) == k;
    }
  }

  lemma DropOne(b: seq<LdapGroupBinding>, j: nat)
    requires j < |b|
    ensures var rest := b[..j] + b[j + 1..];
            && multiset(b) == multiset(rest) + multiset{b[j]}
            && multiset(WantsOf(b)) == multiset(WantsOf(rest)) + multiset(ItemsOf(b[j]))
  {
    hide ItemsOf, WantsOf;
    assert b == b[..j] + [b[j]] + b[j + 1..];
    WantsSplit(b, j);
    WantsConcat(b[..j], b[j + 1..]);
  }

  /** Reordering the bindings only reorders the items. */
  lemma {:induction false} ReorderBindings(a: seq<LdapGroupBinding>, b: seq<LdapGroupBinding>)
    requires multiset(a) == multiset(b)
    ensures multiset(WantsOf(a)) == multiset(WantsOf(b))
    decreases |a|
  {
    hide ItemsOf;
    assert |multiset(a)| == |a| && |multiset(b)| == |b|;
    if a != [] {
      var front, x := a[..|a| - 1], a[|a| - 1];
      assert a == front + [x];
      assert x in multiset(b);
      var j :| 0 <= j < |b| && b[j] == x;
      DropOne(b, j);
      assert multiset(front) == multiset(a) - multiset{x};
      assert multiset(b[..j] + b[j + 1..]) == multiset(b) - multiset{x};
      ReorderBindings(front, b[..j] + b[j + 1..]);
    }
  }

  lemma {:induction false} TaggedCount(group: string, items: seq<Item>, w: Want)
    ensures multiset(Tagged(group, items))[w] == if w.group == group then multiset(items)[w.item] else 0
  {
    if items != [] {
      TaggedCount(group, items[..|items| - 1], w);
      assert items == items[..|items| - 1] + [items[|items| - 1]];
    }
  }

  lemma {:induction false} ItemsCount(group: string, a: seq<Item>, b: seq<Item>)
    requires multiset(a) == multiset(b)
    ensures multiset(Tagged(group, a)) == multiset(Tagged(group, b))
  {
    forall w ensures multiset(Tagged(group, a))[w] == multiset(Tagged(group, b))[w] {
      TaggedCount(group, a, w);
      TaggedCount(group, b, w);
    }
  }

  /** So does reordering the items inside the bindings. */
  lemma {:induction false} ReorderItems(a: seq<LdapGroupBinding>, b: seq<LdapGroupBinding>)
    requires |a| == |b|
    requires forall i | 0 <= i < |a| :: a[i].name == b[i].name && multiset(a[i].items) == multiset(b[i].items)
    ensures multiset(WantsOf(a)) == multiset(WantsOf(b))
  {
    if a != [] {
      var n := |a| - 1;
      ReorderItems(a[..n], b[..n]);
      ItemsCount(a[n].name, a[n].items, b[n].items);
    }
  }
}
