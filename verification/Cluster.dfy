/** The API server as an object: each call may fault, and every call is on record. */
module Cluster {
  import opened Rbac
  import opened Api
  import opened Reconciler

  /** A token handed out, with what was stored at that moment. */
  datatype Issue = Issue(user: string, bindings: Store, accounts: set<string>)

  /** Calls about accounts and tokens. */
  datatype AccountCall = AskAccount(name: string) | MakeAccount(name: string) | AskToken(name: string)

  datatype AccountExchange = AccountExchange(call: AccountCall, reply: Reply)

  /** `log1` is `log0` and one exchange more, which led from `s0` to `s1`. */
  ghost predicate Recorded(log0: seq<Event>, s0: Store, call: Call, reply: Reply, log1: seq<Event>, s1: Store) {
    && |log1| == |log0| + 1
    && log1[..|log0|] == log0
    && log1[|log0|].Called? && log1[|log0|].call == call && log1[|log0|].reply == reply
    && Served(s0, call, log1[|log0|].fault, reply, s1)
  }

  class ApiServer {
    var bindings: Store
    var accounts: set<string>
    ghost var log: seq<Event>
    ghost var issued: seq<Issue>

    ghost var accountLog: seq<AccountExchange>

    /** How many of the calls about accounts and tokens have faulted. */
    ghost var accountFaults: nat

    /** Every managed object in scope, in some order. */
    method Snapshot(scope: Scope) returns (items: seq<Listed>)
      ensures IsListing(bindings, scope, items)
    {
      items := [];
      var rest := set k | k in bindings && ScopeOf(k) == scope && bindings[k].managed;
      while rest != {}
        invariant forall k | k in rest :: k in bindings && ScopeOf(k) == scope && bindings[k].managed
        invariant forall x | x in items ::
                    x.key in bindings && ScopeOf(x.key) == scope && bindings[x.key].managed
                    && x.obj == bindings[x.key] && x.key !in rest
        invariant forall i, j | 0 <= i < j < |items| :: items[i].key != items[j].key
        invariant forall k | k in bindings && ScopeOf(k) == scope && bindings[k].managed ::
                    k in rest || Listed(k, bindings[k]) in items
        decreases |rest|
      {
        var k :| k in rest;
        rest := rest - {k};
        items := items + [Listed(k, bindings[k])];
      }
    }

    method List(scope: Scope) returns (reply: Reply)
      modifies this`log
      ensures Recorded(old(log), bindings, Call.List(scope), reply, log, bindings)
    {
      var fault: Fault := *;
      if fault == NoFault {
        var items := Snapshot(scope);
        reply := Items(items);
      } else {
        reply := Failed(Unavailable);
      }
      log := log + [Called(Call.List(scope), fault, reply)];
    }

    method Create(key: Key, obj: Binding) returns (reply: Reply)
      modifies this`bindings, this`log
      ensures Recorded(old(log), old(bindings), Call.Create(key, obj), reply, log, bindings)
      ensures reply == Done || reply.Failed?
    {
      var fault: Fault := *;
      reply := if fault != NoFault then Failed(Unavailable)
               else if key in bindings then Failed(AlreadyExists) else Done;
      if fault != Dropped && key !in bindings {
        bindings := bindings[key := obj];
      }
      log := log + [Called(Call.Create(key, obj), fault, reply)];
    }

    method Get(key: Key) returns (reply: Reply)
      modifies this`log
      ensures Recorded(old(log), bindings, Call.Get(key), reply, log, bindings)
      ensures reply.Object? || reply.Failed?
    {
      var fault: Fault := *;
      reply := if fault != NoFault then Failed(Unavailable)
               else if key in bindings then Object(bindings[key]) else Failed(NotFound);
      log := log + [Called(Call.Get(key), fault, reply)];
    }

    method Update(key: Key, obj: Binding) returns (reply: Reply)
      modifies this`bindings, this`log
      ensures Recorded(old(log), old(bindings), Call.Update(key, obj), reply, log, bindings)
      ensures reply == Done || reply.Failed?
    {
      var fault: Fault := *;
      reply := if fault != NoFault then Failed(Unavailable)
               else if key in bindings then Done else Failed(NotFound);
      if fault != Dropped && key in bindings {
        bindings := bindings[key := obj];
      }
      log := log + [Called(Call.Update(key, obj), fault, reply)];
    }

    method Delete(key: Key) returns (reply: Reply)
      modifies this`bindings, this`log
      ensures Recorded(old(log), old(bindings), Call.Delete(key), reply, log, bindings)
      ensures reply == Done || reply.Failed?
    {
      var fault: Fault := *;
      reply := if fault != NoFault then Failed(Unavailable)
               else if key in bindings then Done else Failed(NotFound);
      if fault != Dropped {
        bindings := bindings - {key};
      }
      log := log + [Called(Call.Delete(key), fault, reply)];
    }

    /** `Done` if the account exists. */
    method GetAccount(name: string) returns (reply: Reply)
      modifies this`accountFaults, this`accountLog
      ensures accountLog == old(accountLog) + [AccountExchange(AskAccount(name), reply)]
      ensures accountFaults == old(accountFaults) ==> reply == if name in accounts then Done else Failed(NotFound)
      ensures accountFaults != old(accountFaults) ==> reply == Failed(Unavailable)
      ensures accountFaults >= old(accountFaults)
    {
      var fault: Fault := *;
      reply := if fault != NoFault then Failed(Unavailable)
               else if name in accounts then Done else Failed(NotFound);
      accountFaults := if fault == NoFault then accountFaults else accountFaults + 1;
      accountLog := accountLog + [AccountExchange(AskAccount(name), reply)];
    }

    method CreateAccount(name: string) returns (reply: Reply)
      modifies this`accounts, this`accountFaults, this`accountLog
      ensures accountLog == old(accountLog) + [AccountExchange(MakeAccount(name), reply)]
      ensures accountFaults == old(accountFaults) ==>
                accounts == old(accounts) + {name}
                && reply == if name in old(accounts) then Failed(AlreadyExists) else Done
      ensures accountFaults != old(accountFaults) ==>
                reply == Failed(Unavailable) && (accounts == old(accounts) || accounts == old(accounts) + {name})
      ensures accountFaults >= old(accountFaults)
    {
      var fault: Fault := *;
      reply := if fault != NoFault then Failed(Unavailable)
               else if name in accounts then Failed(AlreadyExists) else Done;
      if fault != Dropped {
        accounts := accounts + {name};
      }
      accountFaults := if fault == NoFault then accountFaults else accountFaults + 1;
      accountLog := accountLog + [AccountExchange(MakeAccount(name), reply)];
    }

    /** A token may be issued although its reply is lost. */
    method CreateToken(name: string) returns (reply: Reply)
      modifies this`issued, this`accountFaults, this`accountLog
      ensures accountLog == old(accountLog) + [AccountExchange(AskToken(name), reply)]
      ensures accountFaults == old(accountFaults) ==> reply == if name in accounts then Done else Failed(NotFound)
      ensures accountFaults != old(accountFaults) ==> reply == Failed(Unavailable)
      ensures issued == old(issued) || (name in accounts && issued == old(issued) + [Issue(name, bindings, accounts)])
      ensures reply == Done ==> issued != old(issued)
      ensures accountFaults >= old(accountFaults)
    {
      var fault: Fault := *;
      reply := if fault != NoFault then Failed(Unavailable)
               else if name in accounts then Done else Failed(NotFound);
      if fault != Dropped && name in accounts {
        issued := issued + [Issue(name, bindings, accounts)];
      }
      accountFaults := if fault == NoFault then accountFaults else accountFaults + 1;
      accountLog := accountLog + [AccountExchange(AskToken(name), reply)];
    }
  }
}
