/** The Kubernetes API server as the service sees it: calls, replies and faults.

Create fails on a taken key; Get, Update and Delete fail on an absent one; Update writes what it is
sent.  Any call may also fault: either it had no effect, or it took effect and the reply was lost. */
module Api {
  import opened Rbac

  datatype Call =
    | List(scope: Scope)
    | Create(key: Key, obj: Binding)
    | Get(key: Key)
    | Update(key: Key, obj: Binding)
    | Delete(key: Key)
  {
    predicate Write() {
      Create? || Update? || Delete?
    }
  }

  datatype Code = NotFound | AlreadyExists | Unavailable

  datatype Reply = Items(items: seq<Listed>) | Object(obj: Binding) | Done | Failed(code: Code)

  datatype Fault = NoFault | Dropped | ReplyLost

  /** The store after a call that reached the server. */
  function Effect(s: Store, call: Call): Store {
    match call
    case Create(k, b) => if k in s then s else s[k := b]
    case Update(k, b) => if k in s then s[k := b] else s
    case Delete(k) => s - {k}
    case _ => s
  }

  /** `items` lists every managed object in scope once, in some order. */
  ghost predicate IsListing(s: Store, scope: Scope, items: seq<Listed>) {
    && (forall x | x in items ::
          x.key in s && ScopeOf(x.key) == scope && s[x.key].managed && x.obj == s[x.key])
    && (forall i, j | 0 <= i < j < |items| :: items[i].key != items[j].key)
    && (forall k | k in s && ScopeOf(k) == scope && s[k].managed :: Listed(k, s[k]) in items)
  }

  /** The reply to a call that reached the server. */
  ghost predicate Answers(s: Store, call: Call, reply: Reply) {
    match call
    case List(scope) => reply.Items? && IsListing(s, scope, reply.items)
    case Create(k, _) => reply == if k in s then Failed(AlreadyExists) else Done
    case Get(k) => reply == if k in s then Object(s[k]) else Failed(NotFound)
    case Update(k, _) => reply == if k in s then Done else Failed(NotFound)
    case Delete(k) => reply == if k in s then Done else Failed(NotFound)
  }

  /** One call, end to end. */
  ghost predicate Served(s: Store, call: Call, fault: Fault, reply: Reply, s': Store) {
    match fault
    case NoFault => s' == Effect(s, call) && Answers(s, call, reply)
    case Dropped => s' == s && reply == Failed(Unavailable)
    case ReplyLost => s' == Effect(s, call) && reply == Failed(Unavailable)
  }
}
