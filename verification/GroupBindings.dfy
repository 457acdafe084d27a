/** The informer-fed list of LdapGroupBindings.

The list is a Go slice: a length over a backing array that several slices may share.  Readers get
the slice itself, not a copy, and keep it for as long as they like. */
module GroupBindings {
  import opened Rbac

  /** A Go slice that starts at the front of its backing array; the capacity is the array's length. */
  datatype Slice = Slice(backing: array<LdapGroupBinding>, len: nat) {
    predicate Fits() {
      len <= backing.Length
    }

    ghost function Contents(): seq<LdapGroupBinding>
      requires Fits()
      reads backing
    {
      backing[..len]
    }
  }

  /** A slice as it was handed out: its contents then, and how many updates had been delivered. */
  datatype Snapshot = Snapshot(slice: Slice, items: seq<LdapGroupBinding>, at: nat)

  function IndexOfName(c: seq<LdapGroupBinding>, name: string): (i: nat)
    ensures i <= |c|
    ensures forall j | 0 <= j < i :: c[j].name != name
    ensures i < |c| ==> c[i].name == name
  {
    if c == [] || c[0].name == name then 0 else 1 + IndexOfName(c[1..], name)
  }

  /** The first binding of that name replaced, if there is one. */
  function Replaced(c: seq<LdapGroupBinding>, b: LdapGroupBinding): seq<LdapGroupBinding> {
    var i := IndexOfName(c, b.name);
    if i < |c| then c[i := b] else c
  }

  /** A prefix sees a replacement at the index it has in the whole, if it reaches that far. */
  lemma ReplacedPrefix(c: seq<LdapGroupBinding>, b: LdapGroupBinding, n: nat)
    requires n <= |c|
    ensures var i := IndexOfName(c, b.name);
            Replaced(c[..n], b) == if i < n then c[..n][i := b] else c[..n]
  {
    var i, j := IndexOfName(c, b.name), IndexOfName(c[..n], b.name);
    assert j < n ==> c[..n][j] == c[j];
    assert i < n ==> c[..n][i] == c[i];
  }

  function Without(c: seq<LdapGroupBinding>, name: string): seq<LdapGroupBinding> {
    if c == [] then []
    else
      var rest := Without(c[..|c| - 1], name);
      if c[|c| - 1].name == name then rest else rest + [c[|c| - 1]]
  }

  datatype Notice =
    | Added(binding: LdapGroupBinding)
    | Updated(binding: LdapGroupBinding)
    | Deleted(binding: LdapGroupBinding)

  /** The list after a notice. */
  function After(c: seq<LdapGroupBinding>, n: Notice): seq<LdapGroupBinding> {
    match n
    case Added(b) => c + [b]
    case Updated(b) => if IndexOfName(c, b.name) < |c| then Replaced(c, b) else c + [b]
    case Deleted(b) => Without(c, b.name)
  }

  /** The list after a stream of notices. */
  function Stream(ns: seq<Notice>): seq<LdapGroupBinding> {
    if ns == [] then [] else After(Stream(ns[..|ns| - 1]), ns[|ns| - 1])
  }

  /** Go's append: in place while there is room, else into a new and larger array. */
  method Append(s: Slice, x: LdapGroupBinding) returns (r: Slice)
    requires s.Fits()
    modifies s.backing
    ensures r.Fits() && r.Contents() == old(s.Contents()) + [x]
    ensures if s.len < s.backing.Length then r.backing == s.backing else fresh(r.backing)
    ensures forall i | 0 <= i < s.len :: s.backing[i] == old(s.backing[i])
  {
    if s.len < s.backing.Length {
      s.backing[s.len] := x;
      r := Slice(s.backing, s.len + 1);
    } else {
      var room: nat :| true;
      var bigger := new LdapGroupBinding[s.len + 1 + room];
      for i := 0 to s.len
        modifies bigger
        invariant forall j | 0 <= j < i :: bigger[j] == s.backing[j]
      {
        bigger[i] := s.backing[i];
      }
      bigger[s.len] := x;
      r := Slice(bigger, s.len + 1);
    }
  }

  lemma StreamOneMore(ns: seq<Notice>, n: Notice)
    ensures Stream(ns + [n]) == After(Stream(ns), n)
  {
    assert (ns + [n])[..|ns|] == ns;
  }

  class LdapGroupBindingService {
    var cache: Slice

    /** Every slice handed out so far. */
    ghost var handedOut: seq<Snapshot>

    /** The bindings delivered by updates so far. */
    ghost var updates: seq<LdapGroupBinding>

    /** All notices delivered so far. */
    ghost var notices: seq<Notice>

    ghost function Contents(): seq<LdapGroupBinding>
      requires cache.Fits()
      reads this`cache, cache.backing
    {
      cache.Contents()
    }

    /** What the holder of a snapshot sees at an index: the binding it was given, or a later update
        of the same name. */
    ghost predicate Steady(sn: Snapshot, i: nat)
      requires sn.slice.Fits() && i < sn.slice.len == |sn.items| && sn.at <= |updates|
      reads this`updates, sn.slice.backing
    {
      var b := sn.slice.backing[i];
      b == sn.items[i] || (b.name == sn.items[i].name && b in updates[sn.at..])
    }

    /** Every slice handed out is within bounds, is a prefix of the list while it shares its array,
        and has kept its names. */
    ghost predicate AllSteady()
      reads this`cache, this`handedOut, this`updates, cache.backing, set sn | sn in handedOut :: sn.slice.backing
    {
      && cache.Fits()
      && (forall sn | sn in handedOut ::
            && sn.slice.Fits() && sn.slice.len == |sn.items| && sn.at <= |updates|
            && (sn.slice.backing == cache.backing ==> sn.slice.len <= cache.len)
            && (forall i | 0 <= i < sn.slice.len :: Steady(sn, i)))
    }

    /** The list is what the notices make it, and no slice handed out has suffered. */
    ghost predicate Valid()
      reads this, cache.backing, set sn | sn in handedOut :: sn.slice.backing
    {
      cache.Fits() && AllSteady() && Contents() == Stream(notices)
    }

    /** An operation that leaves every slice handed out as it is, or puts a just-delivered update in
        place of a binding of the same name, keeps every slice steady. */
    twostate lemma StaysSteady()
      requires old(AllSteady()) && cache.Fits() && handedOut == old(handedOut) && old(updates) <= updates
      requires forall sn | sn in handedOut :: sn.slice.backing == cache.backing ==> sn.slice.len <= cache.len
      requires forall sn, i | sn in handedOut && 0 <= i < sn.slice.len ::
                 var b := sn.slice.backing[i];
                 b == old(sn.slice.backing[i])
                 || (b.name == old(sn.slice.backing[i]).name && b in updates[|old(updates)|..])
      ensures AllSteady()
    {
      forall sn, i | sn in handedOut && 0 <= i < sn.slice.len ensures Steady(sn, i) {
        assert old(Steady(sn, i));
        var was := old(updates);
        assert updates == was + updates[|was|..];
        assert updates[sn.at..] == was[sn.at..] + updates[|was|..];
      }
    }

    constructor ()
      ensures Valid() && Contents() == [] && notices == [] && handedOut == [] && updates == [] && fresh(cache.backing)
    {
      var none := new LdapGroupBinding[0];
      cache := Slice(none, 0);
      handedOut, updates, notices := [], [], [];
    }

    method GetBindings() returns (s: Slice)
      requires Valid()
      modifies this`handedOut
      ensures Valid() && s == cache && s.Fits() && s.Contents() == Contents() == old(Contents())
      ensures handedOut == old(handedOut) + [Snapshot(s, Contents(), |updates|)]
    {
      s := cache;
      handedOut := handedOut + [Snapshot(s, Contents(), |updates|)];
      forall sn, i | sn in old(handedOut) && 0 <= i < sn.slice.len ensures Steady(sn, i) {
        assert old(Steady(sn, i));
      }
    }

    /** A notice has been acted on. */
    ghost method Deliver(n: Notice)
      requires AllSteady() && Contents() == After(Stream(notices), n)
      modifies this`notices
      ensures Valid() && notices == old(notices) + [n]
    {
      hide Stream, After;
      StreamOneMore(notices, n);
      notices := notices + [n];
    }

    /** The append that an add makes, and an update of a name not found. */
    method Push(binding: LdapGroupBinding)
      requires AllSteady()
      modifies this`cache, cache.backing
      ensures AllSteady() && Contents() == old(Contents()) + [binding]
      ensures cache.backing == old(cache.backing) || fresh(cache.backing)
      ensures forall sn | sn in handedOut :: sn.slice.Contents() == old(sn.slice.Contents())
    {
      cache := Append(cache, binding);
      forall sn | sn in handedOut ensures sn.slice.backing == cache.backing ==> sn.slice.len <= cache.len {
        assert sn in old(handedOut);
      }
      StaysSteady();
    }

    method Add(binding: LdapGroupBinding)
      requires Valid()
      modifies this`cache, this`notices, cache.backing
      ensures Valid() && notices == old(notices) + [Added(binding)]
      ensures Contents() == After(old(Contents()), Added(binding))
      ensures cache.backing == old(cache.backing) || fresh(cache.backing)
      ensures forall sn | sn in handedOut :: sn.slice.Contents() == old(sn.slice.Contents())
    {
      Push(binding);
      Deliver(Added(binding));
    }

    /** The branch of an update that finds the name, at `i`: the holders of slices that share the
        array see it too, if their slice reaches that far. */
    method ReplaceAt(i: nat, binding: LdapGroupBinding)
      requires AllSteady() && i < cache.len && IndexOfName(Contents(), binding.name) == i
      modifies this`updates, cache.backing
      ensures AllSteady() && Contents() == old(Contents())[i := binding] && updates == old(updates) + [binding]
      ensures forall sn | sn in handedOut ::
                sn.slice.Contents() ==
                  if sn.slice.backing == cache.backing
                  then Replaced(old(sn.slice.Contents()), binding)
                  else old(sn.slice.Contents())
    {
      ghost var was := Contents();
      forall sn | sn in handedOut && sn.slice.backing == cache.backing
        ensures Replaced(sn.slice.Contents(), binding) ==
                  if i < sn.slice.len then sn.slice.Contents()[i := binding] else sn.slice.Contents()
      {
        ReplacedPrefix(was, binding, sn.slice.len);
        assert sn.slice.Contents() == was[..sn.slice.len];
      }
      updates := updates + [binding];
      cache.backing[i] := binding;
      StaysSteady();
    }

    /** A name not in the list is in no slice that shares its array. */
    lemma AbsentFromSlices(binding: LdapGroupBinding)
      requires AllSteady() && IndexOfName(Contents(), binding.name) == |Contents()|
      ensures forall sn | sn in handedOut && sn.slice.backing == cache.backing ::
                Replaced(sn.slice.Contents(), binding) == sn.slice.Contents()
    {
      forall sn | sn in handedOut && sn.slice.backing == cache.backing
        ensures Replaced(sn.slice.Contents(), binding) == sn.slice.Contents()
      {
        ReplacedPrefix(Contents(), binding, sn.slice.len);
        assert sn.slice.Contents() == Contents()[..sn.slice.len];
      }
    }

    /** The branch of an update that does not find the name. */
    method AddInstead(binding: LdapGroupBinding)
      requires AllSteady() && IndexOfName(Contents(), binding.name) == |Contents()|
      modifies this`cache, this`updates, cache.backing
      ensures AllSteady() && Contents() == old(Contents()) + [binding] && updates == old(updates) + [binding]
      ensures cache.backing == old(cache.backing) || fresh(cache.backing)
      ensures forall sn | sn in handedOut :: sn.slice.Contents() == old(sn.slice.Contents())
      ensures forall sn | sn in handedOut && sn.slice.backing == old(cache.backing) ::
                sn.slice.Contents() == Replaced(old(sn.slice.Contents()), binding)
    {
      AbsentFromSlices(binding);
      Push(binding);
      updates := updates + [binding];
      StaysSteady();
    }

    method Update(binding: LdapGroupBinding)
      requires Valid()
      modifies this`cache, this`updates, this`notices, cache.backing
      ensures Valid() && notices == old(notices) + [Updated(binding)]
      ensures Contents() == After(old(Contents()), Updated(binding))
      ensures updates == old(updates) + [binding]
      ensures cache.backing == old(cache.backing) || fresh(cache.backing)
      ensures forall sn | sn in handedOut ::
                sn.slice.Contents() ==
                  if sn.slice.backing == old(cache.backing)
                  then Replaced(old(sn.slice.Contents()), binding)
                  else old(sn.slice.Contents())
    {
      for i := 0 to cache.len
        invariant unchanged(this) && unchanged(cache.backing)
        invariant forall j | 0 <= j < i :: cache.backing[j].name != binding.name
      {
        if cache.backing[i].name == binding.name {
          assert IndexOfName(Contents(), binding.name) == i by {
            assert forall j | 0 <= j < cache.len :: Contents()[j] == cache.backing[j];
          }
          ReplaceAt(i, binding);
          Deliver(Updated(binding));
          return;
        }
      }
      assert IndexOfName(Contents(), binding.name) == cache.len by {
        assert forall j | 0 <= j < cache.len :: Contents()[j] == cache.backing[j];
      }
      AddInstead(binding);
      Deliver(Updated(binding));
    }

    method Delete(binding: LdapGroupBinding)
      requires Valid()
      modifies this`cache, this`notices
      ensures Valid() && notices == old(notices) + [Deleted(binding)]
      ensures Contents() == After(old(Contents()), Deleted(binding))
      ensures fresh(cache.backing)
      ensures forall sn | sn in handedOut :: sn.slice.Contents() == old(sn.slice.Contents())
    {
      hide Stream;
      var none := new LdapGroupBinding[0];
      var out := Slice(none, 0);
      for i := 0 to cache.len
        invariant unchanged(this) && out.Fits() && fresh(out.backing)
        invariant out.Contents() == Without(cache.backing[..i], binding.name)
      {
        var b := cache.backing[i];
        assert cache.backing[..i + 1][..i] == cache.backing[..i];
        if b.name != binding.name {
          out := Append(out, b);
        }
      }
      cache := out;
      forall sn | sn in handedOut ensures sn.slice.backing != cache.backing {
        assert sn in old(handedOut);
      }
      StaysSteady();
      Deliver(Deleted(binding));
    }
  }

  /** The names added or updated since their last deletion. */
  function LiveNames(ns: seq<Notice>): set<string> {
    if ns == [] then {}
    else
      var before, n := LiveNames(ns[..|ns| - 1]), ns[|ns| - 1];
      if n.Deleted? then before - {n.binding.name} else before + {n.binding.name}
  }

  /** The last binding delivered under each live name. */
  function Latest(ns: seq<Notice>): map<string, LdapGroupBinding> {
    if ns == [] then map[]
    else
      var before, n := Latest(ns[..|ns| - 1]), ns[|ns| - 1];
      if n.Deleted? then before - {n.binding.name} else before[n.binding.name := n.binding]
  }

  predicate Names(c: seq<LdapGroupBinding>, name: string) {
    exists b | b in c :: b.name == name
  }

  predicate DistinctNames(c: seq<LdapGroupBinding>) {
    forall i, j | 0 <= i < j < |c| :: c[i].name != c[j].name
  }

  /** The informer's promise: it adds only what is not there. */
  predicate AddsAreNew(ns: seq<Notice>) {
    forall i | 0 <= i < |ns| && ns[i].Added? :: ns[i].binding.name !in LiveNames(ns[..i])
  }

  lemma {:induction false} WithoutMeaning(c: seq<LdapGroupBinding>, name: string)
    ensures forall b :: b in Without(c, name) <==> b in c && b.name != name
  {
    if c != [] {
      WithoutMeaning(c[..|c| - 1], name);
      assert c == c[..|c| - 1] + [c[|c| - 1]];
    }
  }

  lemma {:induction false} WithoutDistinct(c: seq<LdapGroupBinding>, name: string)
    requires DistinctNames(c)
    ensures DistinctNames(Without(c, name))
  {
    if c != [] {
      var front := c[..|c| - 1];
      WithoutDistinct(front, name);
      WithoutMeaning(front, name);
      forall b | b in front ensures b.name != c[|c| - 1].name {
        var i :| 0 <= i < |front| && front[i] == b;
      }
    }
  }

  /** A replacement is of the first binding of the name, and of nothing else. */
  lemma ReplacedFirst(c: seq<LdapGroupBinding>, b: LdapGroupBinding, before: seq<LdapGroupBinding>,
                      was: LdapGroupBinding, after: seq<LdapGroupBinding>)
    requires c == before + [was] + after && was.name == b.name && forall x | x in before :: x.name != b.name
    ensures Replaced(c, b) == before + [b] + after
  {
    var i := IndexOfName(c, b.name);
    assert c[|before|] == was;
    forall j | 0 <= j < |before| ensures c[j].name != b.name {
      assert c[j] == before[j] && before[j] in before;
    }
    assert i == |before|;
  }

  /** A replacement changes the object at one index and no name. */
  lemma ReplacedMeaning(c: seq<LdapGroupBinding>, b: LdapGroupBinding)
    requires IndexOfName(c, b.name) < |c|
    ensures b in Replaced(c, b) && |Replaced(c, b)| == |c|
    ensures forall i | 0 <= i < |c| :: Replaced(c, b)[i].name == c[i].name
    ensures DistinctNames(c) ==> forall x :: x in Replaced(c, b) <==> x == b || (x in c && x.name != b.name)
  {
    var i := IndexOfName(c, b.name);
    var r := Replaced(c, b);
    assert r[i] == b;
    if DistinctNames(c) {
      forall x ensures x in r <==> x == b || (x in c && x.name != b.name) {
        if x in c && x.name != b.name {
          var j :| 0 <= j < |c| && c[j] == x;
          assert r[j] == x;
        }
        if x in r && x != b {
          var j :| 0 <= j < |r| && r[j] == x;
          assert c[j] == x;
        }
      }
    }
  }

  lemma SameNames(c: seq<LdapGroupBinding>, b: LdapGroupBinding)
    requires IndexOfName(c, b.name) < |c|
    ensures forall name :: Names(Replaced(c, b), name) <==> Names(c, name)
  {
    ReplacedMeaning(c, b);
    var r := Replaced(c, b);
    forall name ensures Names(r, name) <==> Names(c, name) {
      if Names(c, name) {
        var x :| x in c && x.name == name;
        var i :| 0 <= i < |c| && c[i] == x;
        assert r[i] in r;
      }
      if Names(r, name) {
        var x :| x in r && x.name == name;
        var i :| 0 <= i < |r| && r[i] == x;
        assert c[i] in c;
      }
    }
  }

  /** After any stream the list names exactly the live names. */
  lemma {:induction false} NamesAreLive(ns: seq<Notice>)
    ensures forall name :: Names(Stream(ns), name) <==> name in LiveNames(ns)
  {
    if ns != [] {
      var front, n := ns[..|ns| - 1], ns[|ns| - 1];
      var c, b := Stream(front), n.binding;
      NamesAreLive(front);
      match n
      case Deleted(_) => WithoutMeaning(c, b.name);
      case Added(_) =>
        assert forall x :: x in c + [b] <==> x in c || x == b;
      case Updated(_) =>
        if IndexOfName(c, b.name) < |c| {
          SameNames(c, b);
          assert c[IndexOfName(c, b.name)] in c;
        } else {
          assert forall x :: x in c + [b] <==> x in c || x == b;
        }
    }
  }

  lemma FrontAddsAreNew(ns: seq<Notice>)
    requires AddsAreNew(ns) && ns != []
    ensures AddsAreNew(ns[..|ns| - 1])
  {
    var front := ns[..|ns| - 1];
    forall i | 0 <= i < |front| && front[i].Added? ensures front[i].binding.name !in LiveNames(front[..i]) {
      assert front[..i] == ns[..i] && ns[i].Added?;
    }
  }

  lemma Appended(c: seq<LdapGroupBinding>, b: LdapGroupBinding)
    requires IndexOfName(c, b.name) == |c| || !Names(c, b.name)
    ensures DistinctNames(c) ==> DistinctNames(c + [b])
    ensures forall x :: x in c + [b] <==> x in c || x == b
    ensures !Names(c, b.name)
  {
    forall x | x in c ensures x.name != b.name {
      var i :| 0 <= i < |c| && c[i] == x;
    }
  }

  /** While adds are of absent names, the list is a map by name: names are distinct, and the binding
      of each is the last one delivered. */
  lemma {:induction false} ListIsMap(ns: seq<Notice>)
    requires AddsAreNew(ns)
    ensures DistinctNames(Stream(ns))
    ensures forall b :: b in Stream(ns) <==> b.name in Latest(ns) && Latest(ns)[b.name] == b
    ensures Latest(ns).Keys == LiveNames(ns)
  {
    if ns != [] {
      var front, n := ns[..|ns| - 1], ns[|ns| - 1];
      var c, b := Stream(front), n.binding;
      FrontAddsAreNew(ns);
      ListIsMap(front);
      NamesAreLive(front);
      match n
      case Deleted(_) =>
        WithoutMeaning(c, b.name);
        WithoutDistinct(c, b.name);
      case Added(_) =>
        assert ns[|ns| - 1].Added?;
        assert !Names(c, b.name);
        Appended(c, b);
      case Updated(_) =>
        if IndexOfName(c, b.name) < |c| {
          ReplacedMeaning(c, b);
        } else {
          Appended(c, b);
        }
    }
  }

  lemma PrefixAddsAreNew(ns: seq<Notice>, n: nat)
    requires AddsAreNew(ns) && n <= |ns|
    ensures AddsAreNew(ns[..n])
  {
    forall i | 0 <= i < n && ns[..n][i].Added? ensures ns[..n][i].binding.name !in LiveNames(ns[..n][..i]) {
      assert ns[..n][..i] == ns[..i] && ns[i].Added?;
    }
  }

  /** Names stay distinct throughout a stream if and only if every add is of an absent name. */
  lemma DistinctIffAddsNew(ns: seq<Notice>)
    ensures AddsAreNew(ns) <==> forall i | 0 <= i <= |ns| :: DistinctNames(Stream(ns[..i]))
  {
    if AddsAreNew(ns) {
      forall i | 0 <= i <= |ns| ensures DistinctNames(Stream(ns[..i])) {
        PrefixAddsAreNew(ns, i);
        ListIsMap(ns[..i]);
      }
    } else {
      var i :| 0 <= i < |ns| && ns[i].Added? && ns[i].binding.name in LiveNames(ns[..i]);
      NamesAreLive(ns[..i]);
      var c, b := Stream(ns[..i]), ns[i].binding;
      assert ns[..i + 1][..i] == ns[..i];
      assert Stream(ns[..i + 1]) == c + [b];
      var x :| x in c && x.name == b.name;
      var j :| 0 <= j < |c| && c[j] == x;
      assert (c + [b])[j].name == (c + [b])[|c|].name;
      assert !DistinctNames(Stream(ns[..i + 1]));
    }
  }

  /** A deletion keeps the order of what remains, and every occurrence. */
  lemma {:induction false} WithoutConcat(a: seq<LdapGroupBinding>, b: seq<LdapGroupBinding>, name: string)
    ensures Without(a + b, name) == Without(a, name) + Without(b, name)
  {
    if b == [] {
      assert a + b == a;
    } else {
      var front := b[..|b| - 1];
      assert (a + b)[..|a + b| - 1] == a + front;
      WithoutConcat(a, front, name);
    }
  }

  lemma {:induction false} WithoutNone(c: seq<LdapGroupBinding>, name: string)
    requires forall b | b in c :: b.name != name
    ensures Without(c, name) == c
  {
    if c != [] {
      assert c[|c| - 1] in c;
      WithoutNone(c[..|c| - 1], name);
      assert c == c[..|c| - 1] + [c[|c| - 1]];
    }
  }

  lemma {:induction false} WithoutAll(c: seq<LdapGroupBinding>, name: string)
    requires forall b | b in c :: b.name == name
    ensures Without(c, name) == []
  {
    if c != [] {
      assert c[|c| - 1] in c;
      WithoutAll(c[..|c| - 1], name);
    }
  }

  /** Where two bindings that remain stood before. */
  lemma {:induction false} WithoutOrder(c: seq<LdapGroupBinding>, name: string, i: nat, j: nat) returns (p: nat, q: nat)
    requires i < j < |Without(c, name)|
    ensures p < q < |c| && c[p] == Without(c, name)[i] && c[q] == Without(c, name)[j]
  {
    var front := c[..|c| - 1];
    if j < |Without(front, name)| {
      p, q := WithoutOrder(front, name, i, j);
    } else {
      q := |c| - 1;
      var x := Without(front, name)[i];
      WithoutMeaning(front, name);
      assert x in front;
      p :| 0 <= p < |front| && front[p] == x;
    }
  }

  /** The notice that brought a live name into the list: the first since the name was last absent. */
  function Arrived(ns: seq<Notice>, name: string): (at: nat)
    requires name in LiveNames(ns)
    ensures at < |ns| && !ns[at].Deleted? && ns[at].binding.name == name && name !in LiveNames(ns[..at])
    ensures forall t | at < t < |ns| && ns[t].Deleted? :: ns[t].binding.name != name
  {
    var front := ns[..|ns| - 1];
    if name in LiveNames(front) then
      var at := Arrived(front, name);
      assert front[..at] == ns[..at];
      at
    else |ns| - 1
  }

  lemma StreamIsLive(ns: seq<Notice>, i: nat)
    requires i < |Stream(ns)|
    ensures Stream(ns)[i].name in LiveNames(ns)
  {
    NamesAreLive(ns);
    assert Stream(ns)[i] in Stream(ns);
    assert Names(Stream(ns), Stream(ns)[i].name);
  }

  lemma ArrivesLast(ns: seq<Notice>, i: nat, j: nat)
    requires ns != [] && AddsAreNew(ns) && i < j < |Stream(ns)|
    requires Stream(ns) == Stream(ns[..|ns| - 1]) + [ns[|ns| - 1].binding]
    ensures Stream(ns)[i].name in LiveNames(ns) && Stream(ns)[j].name in LiveNames(ns)
    ensures Arrived(ns, Stream(ns)[i].name) < Arrived(ns, Stream(ns)[j].name)
    decreases |ns|, 0
  {
    var front := ns[..|ns| - 1];
    FrontAddsAreNew(ns);
    StreamIsLive(ns, i);
    StreamIsLive(ns, j);
    StreamIsLive(front, i);
    if j < |Stream(front)| {
      StreamIsLive(front, j);
      InArrivalOrder(front, i, j);
    } else {
      ListIsMap(ns);
      NamesAreLive(front);
      assert Stream(ns)[j].name !in LiveNames(front);
    }
  }

  /** The list is in order of arrival: an update keeps a name's place, a name new to the list comes
      last, and a deletion moves nothing else. */
  lemma {:induction false} InArrivalOrder(ns: seq<Notice>, i: nat, j: nat)
    requires AddsAreNew(ns) && i < j < |Stream(ns)|
    ensures Stream(ns)[i].name in LiveNames(ns) && Stream(ns)[j].name in LiveNames(ns)
    ensures Arrived(ns, Stream(ns)[i].name) < Arrived(ns, Stream(ns)[j].name)
    decreases |ns|, 1
  {
    var front, n := ns[..|ns| - 1], ns[|ns| - 1];
    var c, b := Stream(front), n.binding;
    FrontAddsAreNew(ns);
    NamesAreLive(front);
    StreamIsLive(ns, i);
    StreamIsLive(ns, j);
    ListIsMap(ns);
    hide AddsAreNew;
    match n
    case Deleted(_) =>
      var p, q := WithoutOrder(c, b.name, i, j);
      StreamIsLive(front, p);
      StreamIsLive(front, q);
      InArrivalOrder(front, p, q);
    case Added(_) => ArrivesLast(ns, i, j);
    case Updated(_) =>
      if IndexOfName(c, b.name) < |c| {
        ReplacedMeaning(c, b);
        StreamIsLive(front, i);
        StreamIsLive(front, j);
        InArrivalOrder(front, i, j);
      } else {
        ArrivesLast(ns, i, j);
      }
  }
}
