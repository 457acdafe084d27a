/** Whole requests at once: each makes sure of its account, reconciles it, and asks for a token.  The
calls of different requests interleave in any way, and any of them may fail. */
module Logins {
  import opened Rbac
  import opened Reconciler
  import opened Convergence
  import opened Interleaving
  import opened Serial

  /** A token handed out to a request, with what was stored at that moment. */
  datatype Token = Token(who: nat, bindings: Store, accounts: set<string>)

  datatype State = State(sys: Sys, accounts: set<string>, entered: set<nat>, tokens: seq<Token>)

  /** Making sure of the account may fail with the account there or not. */
  datatype Act =
    | Enter(who: nat)
    | FailToEnter(who: nat, created: bool)
    | Reconciles(move: Move)
    | IssueToken(who: nat)

  ghost predicate LoginStep(jobs: seq<Job>, a: State, act: Act, b: State) {
    match act
    case Enter(i) =>
      i < |jobs| && b == a.(accounts := a.accounts + {jobs[i].user}, entered := a.entered + {i})
    case FailToEnter(i, created) =>
      i < |jobs| && b == if created then a.(accounts := a.accounts + {jobs[i].user}) else a
    case Reconciles(m) =>
      m.who in a.entered && SysStep(jobs, a.sys, m, b.sys) && b == a.(sys := b.sys)
    case IssueToken(i) =>
      && i in a.entered && i < |a.sys.procs| && a.sys.procs[i] == Finished(Succeeded)
      && i < |jobs|
      && b == a.(tokens := a.tokens + [Token(i, a.sys.store, a.accounts)])
  }

  ghost predicate IsLogins(jobs: seq<Job>, ls: seq<State>, acts: seq<Act>) {
    && |ls| == |acts| + 1
    && ls[0].entered == {} && ls[0].tokens == []
    && |ls[0].sys.procs| == |jobs| && (forall i | 0 <= i < |jobs| :: ls[0].sys.procs[i] == ListCluster)
    && (forall t | 0 <= t < |acts| :: LoginStep(jobs, ls[t], acts[t], ls[t + 1]))
  }

  lemma HistoryExtends(jobs: seq<Job>, hs: seq<Sys>, ms: seq<Move>, m: Move, b: Sys)
    requires IsHistory(jobs, hs, ms) && SysStep(jobs, hs[|ms|], m, b)
    ensures IsHistory(jobs, hs + [b], ms + [m])
  {
    var hs', ms' := hs + [b], ms + [m];
    forall t | 0 <= t < |ms'| ensures SysStep(jobs, hs'[t], ms'[t], hs'[t + 1]) {
      if t < |ms| {
        assert SysStep(jobs, hs[t], ms[t], hs[t + 1]);
      }
    }
  }

  /** The reconciliations among the steps of whole requests form a history. */
  lemma {:induction false} Reconciliations(jobs: seq<Job>, ls: seq<State>, acts: seq<Act>, t: nat)
    returns (hs: seq<Sys>, ms: seq<Move>)
    requires IsLogins(jobs, ls, acts) && t < |ls|
    ensures IsHistory(jobs, hs, ms) && hs[0] == ls[0].sys && hs[|ms|] == ls[t].sys
  {
    if t == 0 {
      hs, ms := [ls[0].sys], [];
    } else {
      hs, ms := Reconciliations(jobs, ls, acts, t - 1);
      assert LoginStep(jobs, ls[t - 1], acts[t - 1], ls[t - 1 + 1]);
      if acts[t - 1].Reconciles? {
        HistoryExtends(jobs, hs, ms, acts[t - 1].move, ls[t].sys);
        hs, ms := hs + [ls[t].sys], ms + [acts[t - 1].move];
      }
    }
  }

  /** A request that got past making sure of its account has one. */
  lemma {:induction false} EnteredHaveAccounts(jobs: seq<Job>, ls: seq<State>, acts: seq<Act>, t: nat)
    requires IsLogins(jobs, ls, acts) && t < |ls|
    ensures forall i | i in ls[t].entered :: i < |jobs| && jobs[i].user in ls[t].accounts
  {
    hide SysStep;
    if t > 0 {
      EnteredHaveAccounts(jobs, ls, acts, t - 1);
      assert LoginStep(jobs, ls[t - 1], acts[t - 1], ls[t - 1 + 1]);
    }
  }

  ghost predicate Earned(jobs: seq<Job>, token: Token) {
    && token.who < |jobs|
    && jobs[token.who].user in token.accounts
    && ClusterExact(jobs[token.who], token.bindings)
  }

  /** However requests for distinct accounts interleave and fail, every token is handed out in a
      state where its account exists and holds exactly the ClusterRoleBindings asked for. */
  lemma {:induction false} TokensAreEarned(jobs: seq<Job>, home: string, ls: seq<State>, acts: seq<Act>, t: nat)
    requires IsLogins(jobs, ls, acts) && t < |ls|
    requires OneService(jobs, home) && Tidy(ls[0].sys.store, home)
    requires forall i, j | 0 <= i < j < |jobs| :: jobs[i].user != jobs[j].user
    ensures forall token | token in ls[t].tokens :: Earned(jobs, token)
  {
    hide ClusterExact, SysStep;
    if t > 0 {
      TokensAreEarned(jobs, home, ls, acts, t - 1);
      assert LoginStep(jobs, ls[t - 1], acts[t - 1], ls[t - 1 + 1]);
      if acts[t - 1].IssueToken? {
        var i := acts[t - 1].who;
        var hs, ms := Reconciliations(jobs, ls, acts, t - 1);
        EnteredHaveAccounts(jobs, ls, acts, t - 1);
        ConcurrentConvergence(jobs, home, hs, ms, i, |ms|);
      }
    }
  }
}
