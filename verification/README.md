# Kerbernetes: the RBAC reconciler, verified

Kerbernetes logs a user in with Kerberos, gives the user a Kubernetes service account, brings that
account's ClusterRoleBindings and RoleBindings in line with the user's LDAP groups, and hands out a
token.  What binds groups to roles is a custom resource, LdapGroupBinding, which an informer keeps in
an in-memory list.  This project models, in Dafny 4.11,

- the reconciler (`internal/services/auth/auth.service.go`),
- the operations on service accounts and bindings
  (`internal/services/k8s/serviceaccounts/serviceaccounts.service.go`),
- the list of LdapGroupBindings, as a Go slice over a shared backing array
  (`internal/services/k8s/ldapgroupbindings/ldapgroupbindings.service.go`),

and proves what a run of the reconciler achieves, what it keeps when it is cut short, and what several
runs at once do to each other.  `dafny verify dfyconfig.toml` checks everything.

## How it is built

The reconciler appears twice.

`AuthService`, `ServiceAccounts`, `GroupBindings` and `Cluster` hold classes with the loops, early
returns and in-place updates of the original.  Module `Reconciler` holds the same protocol as a step
relation, one API call per step, in which each call may meet a fault and in which the order of listings
and of deletions is open.  The methods carry a ghost trace, and `AuthService.Reconcile` proves that
whatever the methods do is a run of the step relation with the same calls in the same order.  Every
theorem about runs is therefore a theorem about the methods; `ReconcileClusterAndRoleBindings`,
`LdapReconcilate` and `AuthAccount` state the main ones in their own contracts (`Lawful`).  `Prepare`
and `Serve` are the body of `AuthAccount`, in two parts.

| File | Content |
|---|---|
| `Names.dfy` | generated binding names |
| `Rbac.dfy`, `ApiServer.dfy` | bindings, jobs, API calls, replies, faults |
| `Reconciler.dfy` | the protocol as a step relation |
| `SoloRun.dfy` | the invariant of every run |
| `Phases.dfy` | the order of a run's calls, and how it ends |
| `Safety.dfy` | frame and crash safety, at every point of every run |
| `Convergence.dfy` | what a success report means |
| `Outcomes.dfy` | every store a run passes through and its outcome, exactly, given the index it listed |
| `CleanRuns.dfy`, `Listings.dfy` | every job has a fault-free run from every store, for every index |
| `Choices.dfy` | what the order of a listing decides |
| `Foreign.dfy` | what a run can do to objects the account does not hold |
| `Retries.dfy` | what runs do to the prospects of later runs |
| `Goals.dfy` | the end state as a function of the start; retries, reordering, a second run |
| `Writes.dfy`, `Counts.dfy` | how many writes a run makes |
| `Revocation.dfy` | taking things away, and what repetition heals |
| `Interleaving.dfy`, `Serial.dfy` | requests for different accounts at once |
| `Overlap.dfy`, `Contention.dfy` | requests for one account at once, for the same or for different items |
| `Logins.dfy` | whole requests at once, tokens included |
| `Canonical.dfy` | which bindings can come to exist |
| `Wanted.dfy` | from LdapGroupBindings to wanted items |
| `Cluster.dfy`, `ServiceAccounts.dfy`, `AuthService.dfy` | the program over the API server |
| `GroupBindings.dfy` | the list of LdapGroupBindings |

## Vocabulary

A *job* is one account, the service's namespace and the wanted items in the order in which the
nested loops visit them.  `Held(job, s)` are the keys of the managed bindings in store `s` that list
the account; `Targets(job)` are the keys the items ask for.  A *run* is any sequence of steps from the
first list call; it may stop anywhere, so a crash is a short run.  A run is *clean* if no call met a
fault.  A *history* is any interleaving of the runs of several jobs over one store.

`Ready(job, s)` collects what a run needs of its surroundings: items have distinct names per kind, no
wanted key is taken by an object the account does not hold, and no RoleBinding name is held in two
namespaces or in another one than its item asks for.  All three can be read off the store and the job
before the run.

A store is `Tidy` if every managed binding lies in the name block `kerbernetes:<account>:` of each
account it lists.  Every store the service itself can produce is (`AlwaysCanonical`, `CanonicalIsTidy`).

## Assumptions

- The API server keeps one map from keys to objects.  Create fails on a taken key; Get, Update and
  Delete fail on an absent one; Update stores exactly what it is sent.  A call may also fail without
  effect, or take effect with its reply lost.  A list call sees one state of the store.
- The label `kerbernetes.io/managed=true` is a flag of the object; other metadata is not modelled.
- Listings come in any order, and so does iteration over a Go map.
- Notices from the informer are delivered one at a time, as the mutex has it.
- LDAP is a user-to-entry map and an entry-to-groups map; a query may fail.  A user without exactly
  one entry is absent from the first map.
- Account names and LdapGroupBinding names hold no colon where a statement says `ColonFree`.  Role
  names are unrestricted.

## What the proofs found

- The reconciler indexes RoleBindings by name alone.  A run that reports success leaves RoleBindings
  exact if and only if no name was held in two namespaces, or in another namespace than its first item
  asks for (`RoleConvergence`).  `StaleNamespaceSurvives` gives the failing runs: of a name held in two
  namespaces and wanted in none, either one can be left behind after a reported success.
- For the same reason revoking everything may take several requests: exactly as many as the largest
  number of namespaces that share one name (`RevocationByRepetition`).
- A run can overwrite a RoleBinding the account does not hold.  Some run does, with whatever faults and
  wherever it is cut, if and only if the object is *exposed*: an item is the first for its name and has
  that very key, both the object and a copy the account holds in another namespace differ from what the
  item asks for, and every earlier item can be passed (`ForeignChange`; no fault is needed,
  `ExposingRun`).  It happens in runs that report success (`ForeignLost`), and then the condition is
  that success is possible besides (`ForeignOverwrite`), and in runs of jobs that cannot succeed
  (`ForeignLostInFailure`).  A ClusterRoleBinding of someone else is never touched.
- Which of several copies of a name is indexed depends on the order of a listing.  Given the index, the
  outcome is exact for every job and store (`SuccessCharacterised`, `CleanEnd`).  The order decides
  between success and failure if and only if success is possible and some item finds its key free and,
  among the copies held in other namespaces, one that needs an update (`ListingOrderDecides`).  Where
  each wanted name is held at most once, the store alone decides (`SuccessByStore`).
- What succeeded need not succeed again.  One LdapGroupBinding that grants one Role in two namespaces is
  reconciled once and never after (`TwoNamespacesOnce`).  After a success a second run can succeed if
  and only if items have distinct names per kind, and must succeed if and only if, besides, the first
  one had to (`SecondRunSucceedsIff`).  With distinct names no run, cut anywhere, changes the prospects
  of later ones (`ProspectsKept`), and a job that cannot succeed never will (`NeverSucceeds`).
- Repetition removes stale copies one namespace at a time and never heals an item moved to another
  namespace (`HealingByRepetition`, an if-and-only-if).
- Two overlapping requests of one account for different items can both report success with neither
  having converged (`DivergentRequests`); the sandwich is what remains (`ConcurrentSandwich`).
- Updating a ClusterRoleBinding rewrites the role name only, so wrong subjects or a wrong role kind
  stay (`ClusterContents`, an if-and-only-if; `WrongSubjectsStay`).  On stores the service itself produced, that update is
  unreachable (`UpdatesOnlyApiGroup`).
- A colon in an LdapGroupBinding name makes generated names ambiguous (`ColonInGroupCollides`).
- The list of LdapGroupBindings is handed out without a copy.  Holders keep length and names for good;
  an update in place can show them a later object of the same name, and nothing else changes for them.

## Model

| member | source | states |
|---|---|---|
| Names.GeneratedNameParts | internal/services/k8s/serviceaccounts/serviceaccounts.service.go:446-448 | a generated name is the fixed word, the account, the LdapGroupBinding and the role, in this order with a colon between, and nothing else |
| Names.SplitAtColon | internal/services/k8s/serviceaccounts/serviceaccounts.service.go:446-448 | a colon-free part and what follows its colon can be read back uniquely |
| Names.GenBindingNameInjective | internal/services/k8s/serviceaccounts/serviceaccounts.service.go:446-448 | equal names come from equal account, role and LdapGroupBinding, if the account and LdapGroupBinding names hold no colon; roles may hold any |
| Names.SameAccountCollision | internal/services/k8s/serviceaccounts/serviceaccounts.service.go:446-448 | for one account two names collide if and only if the "LdapGroupBinding:role" tails are equal, with no assumption on colons |
| Names.ColonInGroupCollides | internal/services/k8s/serviceaccounts/serviceaccounts.service.go:446-448 | without the colon rule distinct requests share a name, for every account |
| Names.GeneratedNameBelongs | internal/services/k8s/serviceaccounts/serviceaccounts.service.go:446-448 | a generated name lies in its account's block |
| Names.BelongsToOne | internal/services/k8s/serviceaccounts/serviceaccounts.service.go:446-448 | the blocks of two colon-free accounts are disjoint |
| Rbac.ClusterRoleItem | internal/services/auth/auth.service.go:197-209 | an item of kind "ClusterRole" is acted on, for the ClusterRoleBinding of its name, with subject kind "ServiceAccount" and a role reference of kind "ClusterRole" in "rbac.authorization.k8s.io" |
| Rbac.RoleItem | internal/services/auth/auth.service.go:211-222 | one of kind "Role" is acted on if and only if it has a namespace, for the RoleBinding of its name there, with a role reference of kind "Role" in its own API group |
| Rbac.OtherItem | internal/services/auth/auth.service.go:224-231 | no other item is ever acted on |
| Rbac.PatchMeaning | internal/services/auth/auth.service.go:334-427 | the reconciler's comparison asks for an update exactly when the update would change the object, one update suffices, a fresh object needs none, and an update never makes the account lose the binding |
| Reconciler.MineMeaning | internal/services/k8s/serviceaccounts/serviceaccounts.service.go:172-182 | the subject filter keeps exactly the listed bindings that name the account |
| Reconciler.IndexedMeaning | internal/services/auth/auth.service.go:275-299 | every listed binding has an entry under its name and every entry is a listed binding of that name |
| SoloRun.Always | internal/services/auth/auth.service.go:161-255 | the invariant of the three phases holds at every point of every run, with any faults, for any starting store and any items |
| Phases.CallsInOrder | internal/services/auth/auth.service.go:175-246 | in every run the listing of ClusterRoleBindings comes first, then that of RoleBindings, then all creates and updates, then all deletes of ClusterRoleBindings, then all of RoleBindings; neither listing comes twice |
| Phases.ItemsInOrder | internal/services/auth/auth.service.go:188-233 | the creates, gets and updates of a run are for the keys of items, in the order of the items; two calls for one item are a get and then an update |
| Phases.FirstFailureEnds | internal/services/auth/auth.service.go:175-246 | the first failed call ends the run, with the error for that call; a run none of whose calls failed succeeds |
| Safety.FatesAlways | internal/services/auth/auth.service.go:188-246 | at every point of every run: what disappeared was held and is unwanted, what changed was updated for an item, what is new was made for an item |
| Safety.Frame | internal/services/auth/auth.service.go:303-507 | keys neither held nor wanted never change; nobody else's ClusterRoleBinding ever changes; new objects are exactly as an item asks; someone else's RoleBinding changes only at a wanted key whose name the account holds in another namespace (the exact condition: Foreign.ForeignChange) |
| Safety.KeysStayWithoutDelete | internal/services/auth/auth.service.go:188-233 | before the first deletion no key has gone |
| Safety.Sandwich | internal/services/auth/auth.service.go:188-246 | wherever a run is cut, the account holds at least what it held and is wanted, at most what it held or is wanted, and in the ensure phase has lost nothing |
| Safety.KeyFixesRole | internal/services/k8s/serviceaccounts/serviceaccounts.service.go:446-448 | two items for one key ask for the same role of the same LdapGroupBinding |
| Safety.GrantSandwich | internal/services/auth/auth.service.go:188-246 | the same sandwich for the roles granted through ClusterRoleBindings: the upper bound always, the lower one with colon-free LdapGroupBinding names |
| Convergence.ClusterConvergence | internal/services/auth/auth.service.go:161-255 | a success report alone, from any starting store and through any faults, means the account's ClusterRoleBindings are exactly the wanted ones, each naming the wanted role |
| Convergence.ClusterContents | internal/services/k8s/serviceaccounts/serviceaccounts.service.go:235-261 | after success a wanted ClusterRoleBinding is exactly as a create would make it if and only if it was not held before or already had the sole subject, the API group and the kind right |
| Convergence.RoleConvergence | internal/services/auth/auth.service.go:282-301 | after success the RoleBindings are exactly the wanted ones with exactly the wanted contents if and only if each name was held in one namespace, agreeing with its first item |
| Convergence.SuccessNeeds | internal/services/auth/auth.service.go:303-455 | where names held agree with the namespaces their items ask for, success implies distinct wanted keys and none taken by someone else's object, even through faults |
| Convergence.SuccessWhenAgreed | internal/services/auth/auth.service.go:303-455 | where names held agree with the namespaces their items ask for, a complete clean run succeeds if and only if the wanted keys are pairwise distinct and none is taken by an object the account does not hold |
| Convergence.ClusterOnlySuccess | internal/services/auth/auth.service.go:310-359 | without Role items the same if-and-only-if with no assumption on the store |
| Outcomes.AfterKeys | internal/services/auth/auth.service.go:303-455 | after any number of items the keys are those of the start and those of the items that create |
| Outcomes.AfterCreate | internal/services/auth/auth.service.go:303-332 | an item that creates on a free key leaves there exactly what it asks for, for the rest of the phase |
| Outcomes.AfterUpdate | internal/services/auth/auth.service.go:411-449 | an item that updates leaves the patched object, for the rest of the phase |
| Outcomes.StepOnTrack | internal/services/auth/auth.service.go:188-246 | a step keeps a run on the track its index lays out, and a clean step fails only if some item does not pass |
| Outcomes.Trajectory | internal/services/auth/auth.service.go:161-255 | whatever faults it meets and wherever it is cut, a run passes through no stores but the one it started from, those after some number of items, and those with some leftovers deleted |
| Outcomes.CleanEnd | internal/services/auth/auth.service.go:303-507 | for every job, store and index listed: a complete clean run ends after the last item that passes, in one determined store, whether it succeeds or fails |
| Outcomes.SuccessCharacterised | internal/services/auth/auth.service.go:303-455 | for every job, store and index listed: a complete clean run succeeds if and only if every item passes: the first item for a name held passes if the indexed copy needs no update or its key exists, any other if its key is free of old objects and of earlier items |
| Outcomes.EndState | internal/services/auth/auth.service.go:161-255 | the store a successful run ends in, as a function of job, start and index |
| Outcomes.PassToBetween | internal/services/auth/auth.service.go:303-455 | for any index, what makes every run pass an item is enough and what lets some run pass it is needed; where each wanted name is held at most once the two agree |
| Outcomes.SuccessIsClean | internal/services/auth/auth.service.go:161-255 | a run that reports success has met no fault |
| Outcomes.SuccessByStore | internal/services/auth/auth.service.go:303-455 | where each wanted name is held at most once, success of a complete clean run is a condition on job and store |
| CleanRuns.ListingFor | internal/services/auth/auth.service.go:275-299 | any choice of one held binding per name is the index of some order of the listing |
| CleanRuns.Finish | internal/services/auth/auth.service.go:188-255 | any run past its listings can be completed without faults |
| CleanRuns.CleanRun | internal/services/auth/auth.service.go:161-255 | for every job, store and index the listings can produce there is a complete clean run |
| CleanRuns.CleanRunExists | internal/services/auth/auth.service.go:161-255 | every job has a complete clean run from every store |
| Choices.SuccessPossible | internal/services/auth/auth.service.go:296-299 | some complete clean run succeeds if and only if every item that creates finds its key free and every item that finds bindings of its name has an object at its key or some copy that needs no update |
| Choices.SuccessCertain | internal/services/auth/auth.service.go:296-299 | every complete clean run succeeds if and only if the same holds with all copies instead of some |
| Choices.ListingOrderDecides | internal/services/auth/auth.service.go:296-299 | for every job and store: of its clean runs one succeeds and another fails if and only if success is possible and some item that finds bindings of its name has neither an object at its key nor all copies as they should be |
| Choices.OneItemOrder | internal/services/auth/auth.service.go:296-299 | for a job of one item: if and only if nothing is at its key and the copies held disagree on whether an update is needed |
| Choices.ThirdNamespace | internal/services/auth/auth.service.go:296-299 | an instance: one copy as wanted and one not, both in other namespaces than the item asks for |
| Choices.StaleNamespaceSurvives | internal/services/auth/auth.service.go:488-505 | for every job and store where success is possible, and every name held in two namespaces and wanted in none: a clean run reports success with either of the two left behind, so RoleBindings are not exact |
| Choices.WrongSubjectsStay | internal/services/k8s/serviceaccounts/serviceaccounts.service.go:250-253 | an instance: a clean run reports success and leaves an existing ClusterRoleBinding with its other subjects, not as a create would make it |
| Foreign.ForeignKept | internal/services/auth/auth.service.go:423-433 | at no point of any run, with any faults, has an object the account does not hold changed, unless it is exposed: a reachable item first for its name has its key, and it and a copy held elsewhere both differ from what the item asks |
| Foreign.ForeignAfterRun | internal/services/auth/auth.service.go:423-433 | after a complete clean run, failed or not, such an object has changed if and only if an item the run passed updates it on account of the copy indexed; where each wanted name is held at most once, if and only if it was exposed |
| Foreign.ForeignChange | internal/services/auth/auth.service.go:423-433 | for every job and store, some run, with any faults and cut anywhere, changes such an object if and only if it is exposed |
| Foreign.ExposingRun | internal/services/auth/auth.service.go:423-433 | and then some complete clean run does |
| Foreign.ForeignOverwrite | internal/services/auth/auth.service.go:423-433 | some run that reports success changes it if and only if it is exposed and success is possible; where success is possible every earlier item can be passed |
| Foreign.ForeignLost | internal/services/auth/auth.service.go:423-433 | an instance: a clean run reports success, has overwritten the foreign object and left the copy in the other namespace behind |
| Foreign.ForeignLostInFailure | internal/services/auth/auth.service.go:423-433 | an instance: a job that cannot succeed, and a run of it that overwrites the foreign object |
| Retries.NeverSucceeds | internal/services/auth/auth.service.go:161-255 | if no run of a job can succeed from a store, none can from any store its runs, cut anywhere, pass through |
| Retries.ProspectsKept | internal/services/auth/auth.service.go:161-255 | with distinct names no run, cut anywhere and with any faults, changes whether a later one can succeed, nor whether it must |
| Retries.ProspectsOutliveAttempts | internal/services/auth/auth.service.go:161-255 | nor do any number of them |
| Retries.SecondRunSucceedsIff | internal/services/auth/auth.service.go:310-359 | after any success from any store: a second run can succeed if and only if items have distinct names, and every clean one does if and only if, besides, every first one had to |
| Retries.TwoNamespacesOnce | internal/services/auth/auth.service.go:388-405 | an instance: one Role granted in two namespaces; from an empty cluster every clean run succeeds, and after it none can |
| Goals.ReachesGoal | internal/services/auth/auth.service.go:161-255 | a complete clean run from a ready store succeeds in one determined store: others' objects as they were, unwanted ones gone, wanted ones made or updated |
| Goals.SuccessIsGoal | internal/services/auth/auth.service.go:161-255 | so does any run from a ready store that reports success |
| Goals.GoalKept | internal/services/auth/auth.service.go:161-255 | at any point of any run the store is still ready and its goal is still the goal of the start |
| Goals.ReadyKept | internal/services/auth/auth.service.go:188-246 | no run, cut anywhere, spoils readiness |
| Goals.RetryConfluence | internal/services/auth/auth.service.go:161-255 | after any number of runs cut at any call, lost replies included, one clean run ends in the very store a single uncut run ends in |
| Goals.OrderIndependence | internal/services/auth/auth.service.go:188-233 | two clean runs over the same items in any two orders, with any listing and deletion orders, end in the same store |
| Goals.BindingOrderIrrelevant | internal/services/auth/auth.service.go:188-233 | in particular permuting the LdapGroupBindings and the items inside each changes nothing |
| Goals.DistinctSlotsMeaning | internal/services/auth/auth.service.go:191-195 | with colon-free LdapGroupBinding names, items have distinct names if and only if no two of a kind agree in LdapGroupBinding and role |
| Goals.SecondSuccessNeedsDistinctNames | internal/services/auth/auth.service.go:359 | two successes in a row are possible only if items have distinct names |
| Goals.SecondRunAfterExact | internal/services/auth/auth.service.go:359 | after a success that left the RoleBindings right, every clean second run succeeds if and only if items have distinct names |
| Writes.AlwaysAccounted | internal/services/auth/auth.service.go:303-507 | at every point of a clean successful run from a ready store the creates, updates and deletes made so far number exactly the bindings gained, changed and lost |
| Writes.MinimalWrites | internal/services/auth/auth.service.go:188-246 | a clean run from a ready store makes one create per wanted missing binding, one update per wanted binding that differs, one delete per unwanted held one |
| Writes.HeldAtGoal | internal/services/auth/auth.service.go:188-246 | after success from a ready store the account holds exactly the wanted keys |
| Writes.SecondRunWritesNothing | internal/services/auth/auth.service.go:161-255 | after a clean run from a ready store, an immediate second clean run succeeds, writes nothing and leaves the store as it was |
| Counts.WritesByIndex | internal/services/auth/auth.service.go:303-507 | from any store a successful run makes one create per item that needs one, one update per item that needs one given the index listed, and one delete per name held that no item asks for |
| Revocation.RevokeOnce | internal/services/auth/auth.service.go:483-507 | with nothing wanted a clean run deletes exactly one binding per name held, touches nothing else, and makes progress while anything is held |
| Revocation.RevokeTimes | internal/services/auth/auth.service.go:483-507 | after n such runs a name held in m namespaces is held in m - n, or none |
| Revocation.RevocationByRepetition | internal/services/auth/auth.service.go:296-299 | after n such runs the account holds nothing if and only if no name was held in more than n namespaces |
| Revocation.UnaskedLoseOne | internal/services/auth/auth.service.go:483-507 | a successful run of any job leaves one copy fewer of every name held that no item asks for |
| Revocation.AgreementKept | internal/services/auth/auth.service.go:296-299 | with distinct names no run, cut anywhere, changes whether held names agree with the namespaces of the items for them |
| Revocation.HealingByRepetition | internal/services/auth/auth.service.go:296-299 | after n > 0 successful runs of a job with distinct names its RoleBindings are exact if and only if at the start held names agreed with their items and no other name was held in more than n namespaces |
| Interleaving.CallsOwn | internal/services/auth/auth.service.go:303-507 | a process only ever writes to keys in its account's name block |
| Interleaving.StepOwn | internal/services/auth/auth.service.go:303-507 | any step keeps the store tidy and changes nothing outside the account's block |
| Interleaving.AlwaysOwn | internal/services/auth/auth.service.go:161-255 | tidiness and ownership hold throughout every history of every set of requests |
| Interleaving.OthersUntouched | internal/services/auth/auth.service.go:303-507 | no step of one account changes an object in another account's block |
| Serial.Relist | internal/services/k8s/serviceaccounts/serviceaccounts.service.go:158-192 | a listing of one store can be matched by one of any store that agrees on the account's block, with the same filtered result |
| Serial.MineElsewhere | internal/services/k8s/serviceaccounts/serviceaccounts.service.go:172-182 | what the filter keeps of a listing is what the account holds in any store that agrees on its block |
| Serial.Mirror | internal/services/auth/auth.service.go:303-507 | any step can be replayed over any store that agrees on the account's block, with the same call, fault and next state |
| Serial.Serialises | internal/services/auth/auth.service.go:161-255 | in any interleaving of requests for distinct accounts each one is, step for step, a run of it alone from the first store: same calls, faults, outcome, and same bindings of its account at every point |
| Serial.ConcurrentConvergence | internal/services/auth/auth.service.go:161-255 | a request that reports success has converged its ClusterRoleBindings, whatever requests for other accounts do |
| Serial.ConcurrentGoal | internal/services/auth/auth.service.go:161-255 | a request that met no fault ends, in its account's block, in the goal it has alone |
| Overlap.NeverLost | internal/services/auth/auth.service.go:175-246 | under overlapping requests for the same items of one account a wanted binding once held is never lost and an unwanted one never comes back |
| Overlap.NeverDeletesWanted | internal/services/auth/auth.service.go:457-481 | none of those requests ever asks to delete a wanted binding |
| Overlap.OverlapConverges | internal/services/auth/auth.service.go:161-255 | once any one of them reports success the account has converged, and stays so whatever the others do, failing ones included |
| Overlap.OverlapClusterExact | internal/services/auth/auth.service.go:303-361 | for ClusterRoleBindings that is exact convergence, from any tidy store |
| Overlap.OverlapExact | internal/services/auth/auth.service.go:363-455 | for everything, where no name is spread over namespaces |
| Overlap.ClusterOnlyCoherent | internal/services/auth/auth.service.go:197-209 | the condition on items that these need holds for ClusterRole items with colon-free LdapGroupBinding names |
| Contention.DeletesUncommon | internal/services/auth/auth.service.go:457-507 | no request deletes a key that all overlapping requests of the account ask for |
| Contention.ConcurrentSandwich | internal/services/auth/auth.service.go:188-246 | under overlapping requests of one account for any items, among requests of any other accounts, what all of them ask for and the account holds stays held, and it never comes to hold what none of them asks for |
| Contention.DivergentRequests | internal/services/auth/auth.service.go:161-255 | that is all: two requests for different items that list before either writes both report success without a fault, and neither has converged |
| Logins.Reconciliations | internal/services/auth/auth.service.go:64-98 | the reconciliations among the interleaved steps of whole requests are a history as above |
| Logins.EnteredHaveAccounts | internal/services/k8s/serviceaccounts/serviceaccounts.service.go:111-128 | a request that got past making sure of its account has one from then on |
| Logins.TokensAreEarned | internal/services/auth/auth.service.go:64-98 | however requests for distinct accounts interleave and fail, every token is handed out in a state where its account exists and holds exactly the ClusterRoleBindings asked for |
| Canonical.AlwaysCanonical | internal/services/k8s/serviceaccounts/serviceaccounts.service.go:201-345 | over all histories of all colon-free jobs with all faults every managed binding stays one the service itself would create: name, sole subject and role agree |
| Canonical.UpdatesOnlyApiGroup | internal/services/auth/auth.service.go:334-426 | from a canonical store, for instance one without managed bindings, the ClusterRoleBinding update is never reached, and the RoleBinding update only when nothing but the API group differs |
| Canonical.CanonicalIsTidy | internal/services/k8s/serviceaccounts/serviceaccounts.service.go:201-220 | such stores are tidy, so requests for distinct accounts serialise over them |
| Canonical.NoUpdatesOnCanonical | internal/services/auth/auth.service.go:334-356 | over a canonical store no run of a job without Role items, with any faults, gets or updates anything |
| Wanted.WantsConcat | internal/services/auth/auth.service.go:188-195 | the items of two lists of bindings in a row are the items of the first, then of the second |
| Wanted.WantsIndex | internal/services/auth/auth.service.go:188-195 | where the k-th item of the i-th LdapGroupBinding stands in the order of the nested loops |
| Wanted.WantsMeaning | internal/services/auth/auth.service.go:188-195 | the loops visit exactly the items of the bindings, under the binding's name |
| Wanted.UserBindingsMeaning | internal/services/auth/auth.service.go:137-142 | the group filter keeps exactly the bindings whose group the user is in |
| Wanted.UserBindingsConcat | internal/services/auth/auth.service.go:137-142 | the filter works piece by piece, so it keeps the order of the list and every occurrence |
| Wanted.UserBindingsAll | internal/services/auth/auth.service.go:137-142 | a list all of whose bindings are for the user stays as it is |
| Wanted.UserBindingsNone | internal/services/auth/auth.service.go:137-142 | of a list none of whose bindings is for the user nothing is left |
| Wanted.TargetsAreGranted | internal/services/auth/auth.service.go:137-222 | the wanted ClusterRoleBindings are those named after an item of kind "ClusterRole" of a binding for one of the user's groups, the wanted RoleBindings those after an item of kind "Role" with a namespace, in that namespace, and no others |
| Wanted.ReorderBindings | internal/services/auth/auth.service.go:188-195 | permuting the bindings permutes the items |
| Wanted.ReorderItems | internal/services/auth/auth.service.go:188-195 | permuting the items inside bindings permutes the items |
| Cluster.ApiServer.List | internal/services/k8s/serviceaccounts/serviceaccounts.service.go:162-171 | a list call is on record with its reply and leaves the store alone |
| Cluster.ApiServer.Snapshot | internal/services/k8s/serviceaccounts/serviceaccounts.service.go:162-167 | every managed object in scope, each once, in some order |
| Cluster.ApiServer.Create | internal/services/k8s/serviceaccounts/serviceaccounts.service.go:222-228 | a create on a free key stores the object, on a taken one fails; it may fault before or after its effect |
| Cluster.ApiServer.Get | internal/services/k8s/serviceaccounts/serviceaccounts.service.go:242-248 | a get replies with the stored object or reports it missing, or faults |
| Cluster.ApiServer.Update | internal/services/k8s/serviceaccounts/serviceaccounts.service.go:251-257 | an update of a present key stores what it is sent, else fails; it may fault before or after its effect |
| Cluster.ApiServer.Delete | internal/services/k8s/serviceaccounts/serviceaccounts.service.go:268-275 | a delete of a present key removes it, else fails; it may fault before or after its effect |
| Cluster.ApiServer.GetAccount | internal/services/k8s/serviceaccounts/serviceaccounts.service.go:115-117 | reports whether the account exists, or faults |
| Cluster.ApiServer.CreateAccount | internal/services/k8s/serviceaccounts/serviceaccounts.service.go:430-440 | the account exists afterwards unless the call faulted; an existing one is refused |
| Cluster.ApiServer.CreateToken | internal/services/k8s/serviceaccounts/serviceaccounts.service.go:135-145 | a token is only ever issued for an existing account, and a reply means one was issued |
| ServiceAccounts.ServiceAccountsService.UpsertServiceAccount | internal/services/k8s/serviceaccounts/serviceaccounts.service.go:111-128 | success means the account exists; one look, and one attempt to create only if it is reported missing; without faults it succeeds, else the caller hears the code of the failed call |
| ServiceAccounts.ServiceAccountsService.IssueToken | internal/services/k8s/serviceaccounts/serviceaccounts.service.go:131-155 | one call for a token, its failure passed on; succeeds if and only if the account exists and the call met no fault; a success has issued one token |
| ServiceAccounts.ServiceAccountsService.FilterBySubject | internal/services/k8s/serviceaccounts/serviceaccounts.service.go:172-182 | the nested loops with their break compute the subject filter, each binding at most once |
| ServiceAccounts.ServiceAccountsService.GetClusterRoleBindings | internal/services/k8s/serviceaccounts/serviceaccounts.service.go:158-192 | one list call; its items that name the account in the service's namespace, or the failure |
| ServiceAccounts.ServiceAccountsService.CreateClusterRoleBinding | internal/services/k8s/serviceaccounts/serviceaccounts.service.go:195-232 | one create of the labelled object with the account as sole subject and the ClusterRole reference, under the generated name |
| ServiceAccounts.ServiceAccountsService.UpdateClusterRoleBinding | internal/services/k8s/serviceaccounts/serviceaccounts.service.go:235-261 | a get, and if it succeeded an update of the fetched object in its role name only |
| ServiceAccounts.ServiceAccountsService.DeleteClusterRoleBinding | internal/services/k8s/serviceaccounts/serviceaccounts.service.go:264-278 | one delete of the named ClusterRoleBinding, with its failure passed on |
| ServiceAccounts.ServiceAccountsService.GetRoleBindings | internal/services/k8s/serviceaccounts/serviceaccounts.service.go:281-314 | one list call over all namespaces, filtered alike |
| ServiceAccounts.ServiceAccountsService.CreateRoleBinding | internal/services/k8s/serviceaccounts/serviceaccounts.service.go:317-361 | one create in the item's namespace with the account, in the service's namespace, as sole subject |
| ServiceAccounts.ServiceAccountsService.UpdateRoleBinding | internal/services/k8s/serviceaccounts/serviceaccounts.service.go:364-406 | a get, and if it succeeded an update of role reference and subjects |
| ServiceAccounts.ServiceAccountsService.DeleteRoleBinding | internal/services/k8s/serviceaccounts/serviceaccounts.service.go:409-424 | one delete by namespace and name, with its failure passed on |
| AuthService.AuthService.GetExistingClusterRoleBindings | internal/services/auth/auth.service.go:261-280 | the first step of a run: the map holds the account's ClusterRoleBindings by name, or the run ended with this error |
| AuthService.AuthService.IndexByName | internal/services/auth/auth.service.go:275-299 | the map built in the loop is the protocol's index: of two bindings with one name the later is kept |
| AuthService.AuthService.GetExistingRoleBindings | internal/services/auth/auth.service.go:282-301 | the second step of a run, likewise for RoleBindings |
| AuthService.AuthService.EnsureClusterRoleBinding | internal/services/auth/auth.service.go:303-361 | brings the run past one ClusterRole item and strikes its name from the map, or ends it with this error |
| AuthService.AuthService.EnsureRoleBinding | internal/services/auth/auth.service.go:363-455 | the same for a Role item, which is skipped, its name not struck, when it has no namespace |
| AuthService.AuthService.SubjectDiffers | internal/services/auth/auth.service.go:412-422 | the comparison is false exactly for the account as the only subject |
| AuthService.AuthService.RemoveUnusedClusterRoleBindings | internal/services/auth/auth.service.go:457-481 | brings the run past the deletion of all ClusterRoleBindings left in the map, in any order |
| AuthService.AuthService.RemoveUnusedRoleBindings | internal/services/auth/auth.service.go:483-507 | brings the run to its end, deleting what is left by the namespace on record |
| AuthService.AuthService.EnsureItem | internal/services/auth/auth.service.go:191-231 | one turn of the inner loop is the protocol's handling of one item, other kinds skipped |
| AuthService.AuthService.EnsureAll | internal/services/auth/auth.service.go:188-233 | the nested loops take the run through all items in order, or to the first error |
| AuthService.AuthService.Reconcile | internal/services/auth/auth.service.go:161-255 | refinement: from any store, what the three phases do is a complete run of the protocol, with exactly the calls the server has on record |
| AuthService.RunIsLawful | internal/services/auth/auth.service.go:161-255 | for every complete run: the sandwich; foreign objects change only if exposed; success means exact ClusterRoleBindings, exact RoleBindings if and only if names kept to one namespace, and that success was possible; without faults it succeeds where it must, reaches the goal from a ready store, and where each wanted name is held at most once succeeds exactly as the store decides and changes exactly the exposed foreign objects |
| AuthService.AuthService.ReconcileClusterAndRoleBindings | internal/services/auth/auth.service.go:161-255 | refines a complete run, and all of the above holds of the stores before and after the call |
| AuthService.CleanCalls | internal/services/auth/auth.service.go:161-255 | a run none of whose recorded calls met a fault is clean |
| AuthService.Directory.GetUser | internal/services/auth/auth.service.go:105-109 | an entry or a failure, nothing else |
| AuthService.Directory.GetUserGroups | internal/services/auth/auth.service.go:110-120 | the groups of an entry, or a failure |
| AuthService.AuthService.FilterByGroups | internal/services/auth/auth.service.go:130-142 | the loops over groups and list compute the group filter, in list order |
| AuthService.AuthService.LdapReconcilate | internal/services/auth/auth.service.go:100-159 | if LDAP answers and knows the user, a complete reconciliation for exactly the bindings of the user's groups is on record, with all that holds of one, and the answer is no error if it succeeded, else 500 with its text; otherwise the answer is 401 with its text, no call was made and no list was handed out |
| AuthService.AuthService.Prepare | internal/services/auth/auth.service.go:69-81 | the request up to the token, with the answer for each way it can end there |
| AuthService.AuthService.Serve | internal/services/auth/auth.service.go:69-97 | the whole request, by how far it got |
| AuthService.AuthService.AuthAccount | internal/services/auth/auth.service.go:64-98 | 401 if and only if the account was made sure of and LDAP failed or does not know the user; with LDAP and a known user a complete reconciliation is on record and a token is asked for if and only if it succeeded; each failure has its own answer; credentials, with their kind and version, if and only if the token call went through; a token is issued only for an existing account and, with LDAP, only in a state where its ClusterRoleBindings are exactly those its user's groups call for; without LDAP no binding changes |
| AuthService.AuthService.GrantsExplained | internal/services/auth/auth.service.go:130-145 | exact ClusterRoleBindings, and exact RoleBindings, spelled out from the list of LdapGroupBindings and the user's groups |
| GroupBindings.IndexOfName | internal/services/k8s/ldapgroupbindings/ldapgroupbindings.service.go:123-124 | the first binding of a name, if any |
| GroupBindings.Append | internal/services/k8s/ldapgroupbindings/ldapgroupbindings.service.go:112 | Go's append: in place while there is room, else in a new array; what was readable stays |
| GroupBindings.LdapGroupBindingService.constructor | internal/services/k8s/ldapgroupbindings/ldapgroupbindings.service.go:53-60 | an empty list, nothing handed out |
| GroupBindings.LdapGroupBindingService.StaysSteady | internal/services/k8s/ldapgroupbindings/ldapgroupbindings.service.go:109-158 | a change that only replaces bindings by just-delivered ones of the same name keeps every slice handed out steady |
| GroupBindings.LdapGroupBindingService.Deliver | internal/services/k8s/ldapgroupbindings/ldapgroupbindings.service.go:71-88 | a notice acted on is on record, and the list is again what the stream of notices makes it |
| GroupBindings.LdapGroupBindingService.Push | internal/services/k8s/ldapgroupbindings/ldapgroupbindings.service.go:112-140 | the append shared by an add and an update of an absent name: no slice handed out changes |
| GroupBindings.LdapGroupBindingService.GetBindings | internal/services/k8s/ldapgroupbindings/ldapgroupbindings.service.go:160-166 | the slice itself, sharing its array; from now on it keeps its length, and at each index the name, under all later operations |
| GroupBindings.LdapGroupBindingService.Add | internal/services/k8s/ldapgroupbindings/ldapgroupbindings.service.go:109-118 | the list grows by the binding and stays the one the stream of notices makes; no slice handed out changes |
| GroupBindings.LdapGroupBindingService.ReplaceAt | internal/services/k8s/ldapgroupbindings/ldapgroupbindings.service.go:124-131 | the first binding of the name is replaced; slices sharing the array see that and nothing else |
| GroupBindings.LdapGroupBindingService.AddInstead | internal/services/k8s/ldapgroupbindings/ldapgroupbindings.service.go:134-140 | a name not found is appended; no slice handed out changes |
| GroupBindings.LdapGroupBindingService.Update | internal/services/k8s/ldapgroupbindings/ldapgroupbindings.service.go:120-141 | replaces or appends, and the list stays the one the stream makes; each slice that shares the array sees its binding of that name replaced, all others see no change |
| GroupBindings.LdapGroupBindingService.Delete | internal/services/k8s/ldapgroupbindings/ldapgroupbindings.service.go:143-158 | all bindings of the name are gone, in a fresh array, and the list stays the one the stream makes; no slice handed out changes |
| GroupBindings.ReplacedPrefix | internal/services/k8s/ldapgroupbindings/ldapgroupbindings.service.go:120-133 | a shorter slice over the same array sees a replacement at the same index, if it reaches that far |
| GroupBindings.ReplacedFirst | internal/services/k8s/ldapgroupbindings/ldapgroupbindings.service.go:120-133 | a replacement changes the first binding of the name and nothing before or after it |
| GroupBindings.ReplacedMeaning | internal/services/k8s/ldapgroupbindings/ldapgroupbindings.service.go:120-133 | a replacement keeps length and names and, with distinct names, swaps exactly the binding of that name |
| GroupBindings.WithoutMeaning | internal/services/k8s/ldapgroupbindings/ldapgroupbindings.service.go:146-151 | the rebuilt list holds exactly the bindings of other names |
| GroupBindings.WithoutConcat | internal/services/k8s/ldapgroupbindings/ldapgroupbindings.service.go:146-157 | the rebuilding works piece by piece, so it keeps the order and every occurrence of what remains |
| GroupBindings.WithoutNone | internal/services/k8s/ldapgroupbindings/ldapgroupbindings.service.go:146-157 | a list without the name stays as it is |
| GroupBindings.WithoutAll | internal/services/k8s/ldapgroupbindings/ldapgroupbindings.service.go:146-157 | of a list of bindings of that name only nothing is left |
| GroupBindings.NamesAreLive | internal/services/k8s/ldapgroupbindings/ldapgroupbindings.service.go:71-158 | after every stream of notices the list names exactly those added or updated since their last deletion |
| GroupBindings.ListIsMap | internal/services/k8s/ldapgroupbindings/ldapgroupbindings.service.go:71-158 | while adds are of absent names, names are distinct and the list holds under each live name the last binding delivered |
| GroupBindings.Arrived | internal/services/k8s/ldapgroupbindings/ldapgroupbindings.service.go:71-158 | the notice that brought a live name into the list: the name was not live before it, and has not been deleted since |
| GroupBindings.InArrivalOrder | internal/services/k8s/ldapgroupbindings/ldapgroupbindings.service.go:71-158 | while adds are of absent names the list is in order of arrival: updates keep a name's place, a name new to the list comes last, a deletion moves nothing else |
| GroupBindings.DistinctIffAddsNew | internal/services/k8s/ldapgroupbindings/ldapgroupbindings.service.go:109-118 | names stay distinct throughout a stream if and only if every add is of an absent name |

## Left out

- The Kerberos handshake, HTTP controllers, principal extraction, OpenAPI, dependency injection and start-up.
- The LDAP connection, filters and search: a query is a lookup that may fail.
- Rules of a real Kubernetes server that are not in the repository: immutable role references, defaulted API groups, admission, resource versions and their conflicts.
- Token contents and expiry, logging, environment parsing.
- The informer itself: start, cache sync, type assertions on events.
- The unlocked reads of a slice handed out, while an update writes to the same array: the list is read as it was when it was handed out.
- Requests without LDAP in the interleavings, and tokens under overlapping requests for one account: the histories of whole requests are those of distinct accounts with LDAP.
- The generated client, listers, informers and deep copies under `k8s/generated`.
- Serialises: assumes tidy stores and colon-free accounts; a managed binding put under a foreign name by hand would couple two accounts.
- SuccessWhenAgreed: assumes that held names agree with the namespaces their first items ask for; Outcomes.SuccessCharacterised assumes nothing.
- OverlapExact: assumes no name is spread over namespaces; OverlapConverges says what holds without that.
