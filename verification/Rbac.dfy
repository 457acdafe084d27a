/** The values the service works on: RBAC bindings, LdapGroupBindings, and one account's job. */
module Rbac {
  import opened Names

  const RBAC_API_GROUP := "rbac.authorization.k8s.io"
  const SERVICE_ACCOUNT := "ServiceAccount"
  const CLUSTER_ROLE := "ClusterRole"
  const ROLE := "Role"

  datatype Subject = Subject(kind: string, name: string, ns: string)

  datatype RoleRef = RoleRef(apiGroup: string, kind: string, name: string)

  /** A stored ClusterRoleBinding or RoleBinding; `managed` is the kerbernetes.io/managed=true label. */
  datatype Binding = Binding(managed: bool, subjects: seq<Subject>, roleRef: RoleRef)

  /** ClusterRoleBindings are keyed by name, RoleBindings by namespace and name. */
  datatype Key = Cluster(name: string) | Namespaced(ns: string, name: string)

  type Store = map<Key, Binding>

  /** An object as a list call returns it, carrying its own key. */
  datatype Listed = Listed(key: Key, obj: Binding)

  datatype Scope = ClusterWide | AllNamespaces

  function ScopeOf(k: Key): Scope {
    if k.Cluster? then ClusterWide else AllNamespaces
  }

  /** What the reconciler's two name-keyed maps can tell apart: a RoleBinding's namespace is lost. */
  datatype Slot = Slot(scope: Scope, name: string)

  function SlotOf(k: Key): Slot {
    Slot(ScopeOf(k), k.name)
  }

  /** Both of the reconciler's maps of existing bindings, as one map. */
  type Index = map<Slot, Listed>

  datatype Item = Item(kind: string, name: string, ns: string, apiGroup: string)

  datatype LdapGroupBinding = LdapGroupBinding(name: string, groupDN: string, items: seq<Item>)

  /** One item of one LdapGroupBinding, in the order the reconciler visits them. */
  datatype Want = Want(group: string, item: Item) {
    /** Items of another kind, and Role items without a namespace, are skipped with a warning. */
    predicate Supported() {
      item.kind == CLUSTER_ROLE || (item.kind == ROLE && item.ns != "")
    }
  }

  /** One reconciliation: the account, the service's namespace and the items to grant. */
  datatype Job = Job(user: string, home: string, wants: seq<Want>) {
    function Me(): Subject {
      Subject(SERVICE_ACCOUNT, user, home)
    }

    /** The label selector and the subject filter of the list calls. */
    predicate Owns(b: Binding) {
      b.managed && Me() in b.subjects
    }

    function NameFor(w: Want): string {
      GenBindingName(user, w.item.name, w.group)
    }

    function KeyFor(w: Want): Key {
      if w.item.kind == CLUSTER_ROLE then Cluster(NameFor(w)) else Namespaced(w.item.ns, NameFor(w))
    }

    function SlotFor(w: Want): Slot {
      SlotOf(KeyFor(w))
    }

    function RefFor(w: Want): RoleRef {
      if w.item.kind == CLUSTER_ROLE
      then RoleRef(RBAC_API_GROUP, CLUSTER_ROLE, w.item.name)
      else RoleRef(w.item.apiGroup, w.item.kind, w.item.name)
    }

    /** The object a create call sends. */
    function Ideal(w: Want): Binding {
      Binding(true, [Me()], RefFor(w))
    }

    /** The object an update call sends, given the one it fetched: a ClusterRoleBinding gets a new
        role name only, a RoleBinding a new role reference and the account as sole subject. */
    function Patch(w: Want, b: Binding): Binding {
      if w.item.kind == CLUSTER_ROLE
      then b.(roleRef := b.roleRef.(name := w.item.name))
      else b.(roleRef := RefFor(w), subjects := [Me()])
    }

    /** The comparison that decides between keeping and updating an existing binding. */
    predicate Matches(w: Want, b: Binding) {
      if w.item.kind == CLUSTER_ROLE
      then b.roleRef.name == w.item.name
      else b.subjects == [Me()] && b.roleRef == RefFor(w)
    }
  }

  /** An item of kind "ClusterRole" is for a ClusterRoleBinding. */
  lemma ClusterRoleItem(job: Job, w: Want)
    requires w.item.kind == "ClusterRole"
    ensures w.Supported()
    ensures job.KeyFor(w) == Cluster("kerbernetes:" + job.user + ":" + w.group + ":" + w.item.name)
    ensures job.Ideal(w) == Binding(true, [Subject("ServiceAccount", job.user, job.home)],
                                    RoleRef("rbac.authorization.k8s.io", "ClusterRole", w.item.name))
  {
  }

  /** One of kind "Role" is for a RoleBinding in its namespace, and skipped if it has none. */
  lemma RoleItem(job: Job, w: Want)
    requires w.item.kind == "Role"
    ensures w.Supported() <==> w.item.ns != ""
    ensures job.KeyFor(w) == Namespaced(w.item.ns, "kerbernetes:" + job.user + ":" + w.group + ":" + w.item.name)
    ensures job.Ideal(w) == Binding(true, [Subject("ServiceAccount", job.user, job.home)],
                                    RoleRef(w.item.apiGroup, "Role", w.item.name))
  {
  }

  /** Only items of these two kinds are ever acted on. */
  lemma OtherItem(w: Want)
    ensures w.Supported() <==> w.item.kind == "ClusterRole" || (w.item.kind == "Role" && w.item.ns != "")
  {
  }

  /** Keys of the managed bindings that list the job's account: what the job's account holds. */
  function Held(job: Job, s: Store): set<Key> {
    set k | k in s && job.Owns(s[k])
  }

  /** What the account holds under one name. */
  function Copies(job: Job, s: Store, sl: Slot): set<Key> {
    set k | k in Held(job, s) && SlotOf(k) == sl
  }

  /** Keys of the bindings the job asks for. */
  function Targets(job: Job): set<Key> {
    set w | w in job.wants && w.Supported() :: job.KeyFor(w)
  }

  /** `k` has the same object, or no object, in both stores. */
  predicate Same(s: Store, t: Store, k: Key) {
    (k in s <==> k in t) && (k in s ==> s[k] == t[k])
  }

  /** An update is needed exactly when it would change something, and one update suffices. */
  lemma PatchMeaning(job: Job, w: Want, b: Binding)
    ensures job.Matches(w, b) <==> job.Patch(w, b) == b
    ensures job.Matches(w, job.Patch(w, b))
    ensures job.Matches(w, job.Ideal(w))
    ensures job.Owns(b) ==> job.Owns(job.Patch(w, b))
    ensures job.Owns(job.Ideal(w))
    ensures job.Owns(job.Patch(w, b)) ==> b.managed
  {
    assert job.Me() in [job.Me()];
  }

  lemma HeldAfterPut(job: Job, s: Store, k: Key, b: Binding)
    ensures Held(job, s[k := b]) == if job.Owns(b) then Held(job, s) + {k} else Held(job, s) - {k}
  {
  }
}
