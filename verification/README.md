# Formal model of the loyalty platform's protocols, uniqueness rules, hierarchy and clocks

This project models the parts of the platform's API whose correctness spans several operations, several
concurrent requests or a whole run, and proves what they keep. `dafny verify dfyconfig.toml` checks it.

Database tables are maps or sequences; one database statement, or one transaction where nothing else can
come between, is one step. Clock readings, generated ids, policies and the choices of the database ("any
row that matches") are parameters or relations. Code that updates rows in place is a class whose methods
are proved against a specification function or relation; the theorems are about runs of those steps.

## The modules

**Login sessions** (`SessionModel`, `SessionInvariants`, `SessionTheorems`, `SessionService`,
`SessionLimits`, `SessionDeactivation`). A step system of refreshes, logins and "log out everywhere" runs, each statement its own
step, every interleaving allowed. `SessionService.AuthService` is the code itself, with arbitrary other
steps between its statements; its tables are always those of the run in its history, and when nobody else is
about the contract of an endpoint gives the exact tables it leaves. Proved over every
run: a login never has two live sessions; refreshes of one token converge; the reuse kill fires only when
justified; a logout ends every session created before it. The stronger promise - nothing in the whole
rotation ancestry of a live session predates the logout - holds in runs that keep three rules, and
`SessionLimits` gives a run that breaks it for each rule:

- *Ordered*: no stamp overwrites a later one. The code takes the stamp's value from the clock before it
  writes it, so of two overlapping logouts the older stamp can be written last.
- *Prompt*: no session is minted between a logout's clock reading and its stamp.
- *Patient*: no token is used before the refresh that minted it has re-read the stamp. The hand-back path
  (auth.service.ts:755-760) can give a second tab a successor before that.

The comment on exit-tenant (auth.service.ts:578-582) says that the assumed lineage can no longer renew
itself; the code revokes the session and its immediate successor only, and
`ExitEndsLineageUnlessRotatedTwice` says exactly when that is enough. The guard lets only a bearer with a
live session in, so what survives has rotated twice between the guard and the revoke
(`SurvivorsRotatedAfterTheGuard`); `TwoRotationsOutliveExit` is such a run.

Deactivating an outlet stamps and sweeps inside one transaction (admin-outlets.service.ts:1612-1663), so both
take effect at its commit. `SessionDeactivation` proves who is still live then - exactly the sessions minted
after the sweep had looked - and gives a run in which one of them is settled although its predecessor is
older than the stamp, against the comment at 1650-1653.

**Owner groups** (`PartnerGroup`, `OwnerGroups`, `GroupRules`, `OwnerGroupLimits`). Canonical identity
values, the group's PAN, the uniqueness check and the un-group guard, and every operation that moves an outlet
or writes details; `GroupRules` says in terms of the tables and the texts alone what the checks compare, what
they report and what each operation writes. Two properties, each with its exact condition over every sequential run: two live partners
with the same enforced value share a group, if and only if at every un-group whoever the guard overlooks, and
at every upload row whoever the check does not see, still shares a group with the owner that leaves; and all
members of a group with a PAN have the same PAN, if and only if no detail write differs from a PAN in another
group of the owner. `OwnerGroupLimits` has a run from empty tables for each way to fail:

- the guard looks at GST only when the policy says so, while the check enforces it always;
- a soft-deleted outlet counts as membership for the check but not for the guard;
- the read at the start of an upload skips soft-deleted outlets (admin-outlets.service.ts:935-955), but the
  row is found by its code (1123-1127): re-linking a deleted outlet takes its owner out of a group unchecked;
- a detail write through an ungrouped outlet of an owner that also has a grouped one is checked as if the
  owner had no group. (That an owner gets a second outlet is a step of the environment: no API request does
  it, but the code provides for such owners.)

The same read at the start makes two rows of one upload move an outlet from the first row's group to the
second's, which the guard is there to prevent (`SecondRowMovesOutlet`); uniqueness survives that, because the
check then speaks for the owner.

**Identity locks** (`IdentityLocks`, `LockProtocol`, `LockCommits`, `LockLimits`, `LockDeadlock`). Writers
that lock their sorted keys, search field by field and commit. Outside-group uniqueness is kept in every interleaving, for any hash
whatever, as long as a commit still finds the outlet where it read it. `LockCommits` gives the exact condition
for any commit on any tables, and for whole runs; `LockLimits` is a run from empty tables in which a link that
was read before its outlet joined another group breaks uniqueness. A circular wait,
though, is reachable if and only if the hash makes two pairs of keys cross:
what is sorted is the key text, what is locked is its hash. The comment that a collision is "a harmless
extra serialization" (partner-group.helper.ts:500-501) holds when only values of one field collide.

**Employee hierarchy** (`HierarchyModel`, `HierarchyTheorems`, `HierarchyRows`, `HierarchyRepeat`). The upload of a
hierarchy, with the unique indexes checked at every single write and the transaction rolled back on a
failure. For a file that passes its own checks, no index is ever hit - whatever the tables that admit it -
if and only if the file is *safe*: no id with surrounding blanks whose trimmed form may have that phone,
and no phone of an ACTIVE employee that comes again further down (a real phone of the `__vacant__:` form).
`HierarchyRows` says which rows an upload that gets through leaves, and that nothing else has changed.
The header comment calls the upload idempotent (hierarchy-persistence.ts:12): repeating a clean upload
changes nothing, but the second one is refused if a level outside the config stands at a level of the
config or is parked where one would be parked. One forgotten level blocks every later upload.

**Reporting graph** (`ReportingGraph`). The two subtree searches find the same set; the cycle guard of an
edit is exact; an upload keeps the graph acyclic if and only if its own links are acyclic. Two edits that
are both checked before either is written can close a cycle, and the condition for that is exact; two
employees at the top, each set to report to the other, are enough.

**KYC buckets** (`KycBuckets`). The filter of each display bucket as a tree of column tests with SQL's
three truth values, and the status label. They agree on every bucket if and only if the outlet is not
parked, or is parked with nothing to act on and no submission beyond the start. Parking does not ask for
an owner or a submission, so an outlet that is listed twice can be reached.

**Outlet lifecycle** (`OutletLifecycle`). Upload, deactivate, reactivate, park, un-park and delete, with
KYC as the environment. No admin path opens an outlet that KYC never approved. Uploading the code of an
outlet that was deactivated and then deleted makes it active while it is still deleted: that is the only
step that makes a deleted outlet active, and a run from nothing reaches it.

**Calendar, Indian dates, working time, review clocks** (`Calendar`, `IstDate`, `BusinessHours`, `KycSla`).
Date arithmetic as in section 21.4.1 of ECMA-262, month keys and bounds, day starts and ends, the
validity of a written date, the working-time count, and the two review clocks as the list rounds them and
as the dashboard counts them.

**Credit names** (`CreditNames`) replays a credit batch; **leaf-first deletion** (`LeafFirstDeletion`)
empties a table that points at itself.

## Model

| member | source | states |
|---|---|---|
| SessionInvariants.StepKeepsInv | api/src/auth/auth.service.ts:619-792 | every step of refresh, login and logout keeps: at most one successor per row, a rotated row is revoked, one refresh holds a claim, swept logouts leave nothing older alive |
| SessionInvariants.RunKeepsInv | api/src/auth/auth.service.ts:619-792 | the same over every run from the empty tables |
| SessionTheorems.OneLiveSessionPerLogin | api/src/auth/auth.service.ts:647-714 | two live sessions that descend from one login are the same session |
| SessionTheorems.RefreshesConverge | api/src/auth/auth.service.ts:709-760 | any two refreshes of one token that both return a pair return the same pair, the token's successor |
| SessionTheorems.ReuseKillIff | api/src/auth/auth.service.ts:755-783 | in every run, a look-up logs its user out everywhere if and only if the row was already revoked when it was read, more than five seconds ago, and no successor is live |
| SessionTheorems.ExitEndsLineageUnlessRotatedTwice | api/src/auth/auth.service.ts:577-594 | the revoke of exit-tenant leaves no live descendant of the operator's session if and only if no live row is two or more rotations later |
| SessionTheorems.SurvivorsRotatedAfterTheGuard | api/src/auth/strategies/jwt.strategy.ts:35-49 | once the guard has let the request in, every row the exited session was rotated into is newer than the guard's read |
| SessionLimits.TwoRotationsOutliveExit | api/src/auth/auth.service.ts:577-594 | a run in which the guard sees the session live, it is rotated twice before the revoke, and the second rotation lives on |
| SessionTheorems.SweepEndsOldSessions | api/src/auth/auth.service.ts:834-851 | in every run, once a logout has swept, no session of its users created before its clock reading is live |
| SessionTheorems.LogoutScreensSuccessors | api/src/auth/auth.service.ts:715-738 | in every run whose stamps never go back, a live refreshed session after a sweep is still awaiting its re-read or its predecessor was created at or after the logout |
| SessionTheorems.LogoutClearsAncestry | api/src/auth/auth.service.ts:709-760 | in every run that keeps the three rules, every row of the whole ancestry of a live, settled session was created at or after the logout |
| SessionTheorems.StepKeepsStamps | api/src/auth/auth.service.ts:834-846 | stamps of effective logouts are never below their clock reading while stamps do not go back |
| SessionTheorems.RotatedRowsAreRevoked | api/src/auth/auth.service.ts:647-660 | every proper ancestor of a row is revoked |
| SessionTheorems.RevokedIsFinal | api/src/auth/auth.service.ts:654-657 | in every run a revoked session stays exactly as it is: every later update asks for rows that are not revoked |
| SessionTheorems.ChainIsALine | api/src/auth/auth.service.ts:447-450 | two rows of one login are ancestor and descendant, one way or the other |
| SessionLimits.StaleStampLosesLogout | api/src/auth/auth.service.ts:834-851 | a patient run with two overlapping logouts in which a swept logout is escaped because the older stamp is written last |
| SessionLimits.EarlyMintHidesOldAncestor | api/src/admin-core/admin-core.service.ts:181-197 | an ordered, patient run in which a session minted between clock reading and stamp leaves a live session with an older ancestor |
| SessionLimits.EarlyHandBackOutlivesLogout | api/src/auth/auth.service.ts:755-760 | an ordered, prompt run in which the hand-back exposes a successor before its re-read and its lineage outlives the logout |
| SessionService.AuthService.RefreshToken | api/src/auth/auth.service.ts:619-792 | a whole refresh with any steps of others in between: it hands out a pair if and only if the token is known and not from before a log-out and either it claims the row, the gates pass and the stamp has not moved at its re-read, or its row has a live successor when it looks; with nobody else about, the exact tables it leaves in each of these cases |
| SessionService.AuthService.RotateClaimed | api/src/auth/auth.service.ts:659-739 | after the claim: a pair if and only if the gates pass and the stamp is not newer than the row; a gate that refuses mints nothing |
| SessionService.AuthService.Converge | api/src/auth/auth.service.ts:743-790 | after a lost claim or a dead row: the live successor, or none - and then the log-out everywhere is carried out exactly when the row was read revoked more than five seconds ago |
| SessionService.AuthService.ClaimRow | api/src/auth/auth.service.ts:647-657 | wins exactly when the row was live, and the row is revoked afterwards either way |
| SessionService.AuthService.ValidateBearer | api/src/auth/strategies/jwt.strategy.ts:28-77 | the guard lets in exactly a live, unexpired session of its own, and then keeps it for seven days when less than six are left |
| SessionService.AuthService.RereadStamp | api/src/auth/auth.service.ts:716-731 | fails exactly when the predecessor is older than the user's stamp as it is now |
| SessionService.AuthService.HandBack | api/src/auth/auth.service.ts:755-783 | returns a pair exactly when the token has a live successor |
| SessionService.AuthService.ExitTenant | api/src/auth/auth.service.ts:557-595 | refused unless the bearer's own session is live; otherwise its last statement revokes exactly the operator's exited session and what was rotated from it, and with nobody else about that and a new home session is all that changes |
| SessionService.AuthService.LogoutEverywhere | api/src/auth/auth.service.ts:834-851 | after stamp and sweep, with any steps of others in between, every live session of the users was created at or after the clock reading |
| SessionService.AuthService.SweepUsers | api/src/admin-core/admin-core.service.ts:181-208 | revokes and counts exactly the live rows of the users |
| SessionService.PairIsTheSuccessor | api/src/auth/auth.service.ts:709-760 | over any run, a refresh that is done with a pair returned a successor of its own token |
| SessionDeactivation.SurvivorsAreMintedAfterTheSweep | api/src/admin-outlets/admin-outlets.service.ts:1612-1663 | in every run, the users' sessions that are live right after the commit are exactly those live before it and minted after the sweep looked |
| SessionDeactivation.CommitSparesOthers | api/src/admin-outlets/admin-outlets.service.ts:1652-1661 | in every run the commit leaves the sessions of everybody else as they were |
| SessionDeactivation.LockedStays | api/src/admin-outlets/admin-outlets.service.ts:1612-1663 | while the transaction is open, nobody changes a row its sweep found or a stamp of its users |
| SessionDeactivation.WaitsIff | api/src/admin-outlets/admin-outlets.service.ts:1612-1663 | and only a statement that names such a row or such a stamp has to wait |
| SessionDeactivation.LateRereadIsCaught | api/src/admin-outlets/admin-outlets.service.ts:1650-1661 | a re-read after the commit sees the stamp and drops a successor of an older session |
| SessionDeactivation.SuccessorSlipsThrough | api/src/admin-outlets/admin-outlets.service.ts:1650-1661 | a run in which a refresh mints after the sweep and re-reads before the commit, and its session survives the deactivation |
| PartnerGroup.NormalizeTwice | api/src/common/partner-group.helper.ts:95-110 | a canonical value is its own canonical form, so a stored value is found by equality |
| PartnerGroup.NormalizeIgnoresCase | api/src/common/partner-group.helper.ts:95-110 | a value with any blanks around it, and a PAN or GST number in any case, has the canonical form of the plain value |
| GroupRules.NormalizeIs | api/src/common/partner-group.helper.ts:95-110 | the canonical value is the text without surrounding blanks, in capitals for a PAN or GST number; there is none exactly for a text of blanks |
| PartnerGroup.ResolveGroupPan | api/src/common/partner-group.helper.ts:138-164 | the parent's PAN if it has one, else the PAN of some live sibling with one, else none |
| PartnerGroup.SearchField | api/src/common/partner-group.helper.ts:433-468 | reports a clash if and only if a live holder other than the excepted one shares no group with the outlet |
| GroupRules.ClashesIff | api/src/common/partner-group.helper.ts:87-90 | a field clashes if and only if it counts - PAN and GST always, bank and UPI by policy - and a live partner other than the excepted one has the canonical value and does not belong to our group |
| PartnerGroup.CheckGroupUniqueness | api/src/common/partner-group.helper.ts:391-472 | the first violation: the group's PAN, then PAN, GST, bank, UPI, with its reason |
| GroupRules.VerdictIs | api/src/common/partner-group.helper.ts:396-472 | nothing clashes, or the first of PAN, GST, bank, UPI that does, with its reason: a mismatch for the PAN of a grouped outlet, else a duplicate |
| PartnerGroup.CleanVerdictMeans | api/src/common/partner-group.helper.ts:418-472 | a clean verdict means that nobody outside the group holds an enforced value and the group's PAN is none or ours |
| PartnerGroup.ChildSharesDetailWithGroup | api/src/common/partner-group.helper.ts:555-626 | true if and only if the owner shares a guarded detail with somebody who remains in the group |
| GroupRules.SharesIff | api/src/common/partner-group.helper.ts:575-626 | the guard finds a shared detail if and only if the owner and somebody who stays have the same canonical PAN, or the same GST, bank, UPI or phone where the policy guards it |
| GroupRules.PhoneLast10Iff | api/src/common/partner-group.helper.ts:649-652 | phones are compared by their last ten digits, whatever stands before and between them |
| GroupRules.NoPhoneIff | api/src/common/partner-group.helper.ts:649-652 | a text has no phone to compare if and only if it has fewer than ten digits |
| OwnerGroups.OwnerRegistry.Create | api/src/admin-outlets/parents.service.ts:226-300 | creates the parent with canonical details, or refuses - an id that is taken, a clash - and changes nothing |
| OwnerGroups.OwnerRegistry.Approve | api/src/admin-outlets/parents.service.ts:334-390 | an id that is no live parent is not found; otherwise re-checks the parent against everyone else and rewrites canonical details, or changes nothing |
| OwnerGroups.OwnerRegistry.Link | api/src/admin-outlets/admin-outlets.service.ts:1070-1147 | one upload row: links to a live parent after the check, unless the group seen when the request started is another one |
| OwnerGroups.OwnerRegistry.UploadLinks | api/src/admin-outlets/admin-outlets.service.ts:930-1147 | one upload: the groups are read once, without soft-deleted outlets, and the rows are taken in order against that read |
| OwnerGroups.OwnerRegistry.UngroupOutlet | api/src/admin-outlets/admin-outlets.service.ts:1224-1287 | a missing, deleted or ungrouped outlet is not allowed; otherwise ungroups if and only if the guard finds no shared detail |
| OwnerGroups.OwnerRegistry.Deactivate | api/src/admin-outlets/parents.service.ts:439-479 | soft-deletes a parent if and only if it is live and has no live child |
| GroupRules.CreateWrites | api/src/admin-outlets/parents.service.ts:226-300 | nothing is written if and only if the id is taken or a value clashes; else one new parent row with canonical details |
| GroupRules.ApproveWrites | api/src/admin-outlets/parents.service.ts:334-390 | only the details of a live parent change, to their canonical form, unless something clashes |
| GroupRules.LinkWrites | api/src/admin-outlets/admin-outlets.service.ts:1070-1147 | only the outlet's group changes - or a pending row is made - and only when no value of its owner clashes outside the parent's group |
| GroupRules.UngroupWrites | api/src/admin-outlets/admin-outlets.service.ts:1224-1287 | the group is cleared if and only if the outlet is live and grouped and its owner has nothing guarded in common with anybody who stays |
| GroupRules.DeactivateWrites | api/src/admin-outlets/parents.service.ts:439-479 | the parent is soft-deleted if and only if it is live and all outlets of its group are deleted |
| GroupRules.KycWrites | api/src/common/partner-group.helper.ts:391-472 | a detail write overlays the details of the outlet's live owner, or makes the owner of a pending outlet, and none of its values clashes |
| OwnerGroups.MoveKeepsUniqueIff | api/src/common/partner-group.helper.ts:112-124 | moving one outlet keeps uniqueness if and only if nobody who shares a value with its owner is left behind |
| OwnerGroups.UngroupKeepsUniqueIff | api/src/common/partner-group.helper.ts:555-626 | an un-group that the guard lets through keeps uniqueness if and only if everybody the guard overlooks still shares a group with the owner |
| OwnerGroups.LinkKeepsUniqueIff | api/src/admin-outlets/admin-outlets.service.ts:1070-1147 | a link that passes its check keeps uniqueness if and only if everybody it does not see, through a soft-deleted outlet, still shares a group with the owner |
| OwnerGroups.StepKeepsUniqueIff | api/src/common/partner-group.helper.ts:418-472 | an accepted operation of any kind keeps uniqueness if and only if it fits |
| OwnerGroups.RunKeepsUnique | api/src/common/partner-group.helper.ts:418-472 | in every run from empty tables whose accepted operations fit so far, two live partners with the same enforced value share a group |
| OwnerGroups.RunKeepsUniqueIff | api/src/common/partner-group.helper.ts:418-472 | a run keeps uniqueness throughout if and only if all its accepted operations fit |
| OwnerGroups.UngroupKeepsUnique | api/src/common/partner-group.helper.ts:555-626 | a passing guard, with GST guarded and nothing hidden, separates no two partners with a shared enforced value |
| OwnerGroups.KycKeepsOnePanIff | api/src/common/partner-group.helper.ts:391-412 | a checked detail write keeps one PAN per group if and only if nobody in the owner's other groups has another PAN |
| OwnerGroups.StepKeepsOnePanIff | api/src/common/partner-group.helper.ts:391-412 | an accepted operation of any kind keeps one PAN per group, parent included, if and only if it fits |
| OwnerGroups.RunKeepsOnePan | api/src/common/partner-group.helper.ts:391-412 | in every run from empty tables whose accepted operations fit so far, each group has one PAN |
| OwnerGroups.RunKeepsOnePanIff | api/src/common/partner-group.helper.ts:391-412 | a run keeps one PAN per group throughout if and only if all its accepted operations fit |
| OwnerGroupLimits.GuardIsEnoughIffGstGuarded | api/src/common/partner-group.helper.ts:598-604 | the guard keeps uniqueness on all tables that hide nothing if and only if the policy guards GST |
| OwnerGroupLimits.UnguardedGstSlipsOut | api/src/common/partner-group.helper.ts:598-604 | a run, for every policy that does not guard GST, whose last un-group separates two owners with one GST number |
| OwnerGroupLimits.HiddenSiblingBreaksUniqueness | api/src/common/partner-group.helper.ts:446-449 | a run, for every policy, in which a soft-deleted outlet hides its owner from the guard and the un-group breaks uniqueness |
| OwnerGroupLimits.RelinkedDeletedOutletBreaksUniqueness | api/src/admin-outlets/admin-outlets.service.ts:935-1127 | a run, for every policy, whose last upload row moves a soft-deleted outlet and takes its live owner from a sharer of its PAN |
| OwnerGroupLimits.SecondRowMovesOutlet | api/src/admin-outlets/admin-outlets.service.ts:1075-1080 | two rows of one upload move an ungrouped outlet into the first parent's group and on to the second's |
| OwnerGroupLimits.SecondDoorSplitsGroupPan | api/src/common/partner-group.helper.ts:391-412 | a run, for every policy, in which a clean write through an ungrouped outlet of a grouped owner gives the group two PANs |
| IdentityLocks.KeysCompareByField | api/src/common/partner-group.helper.ts:493-498 | key texts of one tenant compare as strings exactly as their fields' names do, whatever the values |
| IdentityLocks.LockKeys | api/src/common/partner-group.helper.ts:486-504 | pushing field by field and sorting as strings gives the enforced keys in the order bank, gst, pan, upi |
| IdentityLocks.LockOrderIs | api/src/common/partner-group.helper.ts:486-498 | the key texts themselves, bank and UPI only when the policy enforces them |
| IdentityLocks.AscendingIsUnique | api/src/common/partner-group.helper.ts:498-498 | a multiset of keys has one sorted order |
| LockProtocol.RunKeepsLocks | api/src/common/partner-group.helper.ts:486-504 | in every interleaving a lock has one running owner, which holds every lock it took |
| LockProtocol.LockedValuesDiffer | api/src/common/partner-group.helper.ts:474-484 | two running writers that both have all their locks write different enforced values |
| LockProtocol.LockWaitsIff | api/src/common/partner-group.helper.ts:499-503 | a writer waits for a lock if and only if another transaction has it, never for its own |
| LockProtocol.CommitKeepsClean | api/src/admin-outlets/parents.service.ts:262-300 | the commit of another writer leaves the finished searches of this one clean |
| LockProtocol.CommitDoesTheOp | api/src/admin-outlets/parents.service.ts:262-300 | a writer that is alone searches cleanly and commits exactly what its operation does in the sequential runs |
| LockProtocol.RunKeepsUniqueness | api/src/common/partner-group.helper.ts:474-504 | in every steady interleaving of any number of writers, for any hash, outside-group uniqueness holds |
| LockCommits.CommitKeepsUniqueIff | api/src/admin-outlets/parents.service.ts:262-300 | any commit, on any tables, keeps uniqueness if and only if whoever has a value it writes, or shares one with the owner it moves, is together with that owner afterwards |
| LockCommits.RunKeepsUniqueIffFit | api/src/common/partner-group.helper.ts:474-504 | a run of writers, however they overlap, keeps uniqueness throughout if and only if each commit fits the tables it finds |
| LockLimits.StaleLinkBreaksUniqueness | api/src/admin-outlets/admin-outlets.service.ts:1075-1102 | a run of seven writers from empty tables that keeps uniqueness until a link whose outlet has since joined another group is committed |
| LockDeadlock.CircleIffCrossed | api/src/common/partner-group.helper.ts:484-503 | a circular wait is reachable if and only if some usable keys cross under the hash |
| LockDeadlock.NoCircle | api/src/common/partner-group.helper.ts:484-503 | without crossing keys no run from any tables ever has a circular wait |
| LockDeadlock.SameFieldCollisionsAreHarmless | api/src/common/partner-group.helper.ts:500-503 | a hash that keeps keys of different fields apart, an injective one included, never lets writers block in a circle |
| HierarchyModel.HierarchyStore.CheckFile | api/src/admin-core/hierarchy-persistence.ts:190-224 | accepts exactly the files with non-blank, distinct trimmed ids and distinct real phones |
| HierarchyModel.HierarchyStore.CheckPhones | api/src/admin-core/hierarchy-persistence.ts:226-257 | accepts exactly when every ACTIVE user with an uploaded phone is that employee's user |
| HierarchyModel.HierarchyStore.ShiftLevels | api/src/admin-core/hierarchy-persistence.ts:259-273 | moving the levels row by row, in any order, meets the level index if and only if some row is parked where another lands |
| HierarchyModel.HierarchyStore.UpsertLevels | api/src/admin-core/hierarchy-persistence.ts:275-283 | each code takes its level, or the first collision stops the upload |
| HierarchyModel.HierarchyStore.UpsertEmployee | api/src/admin-core/hierarchy-persistence.ts:291-376 | one employee's user and sales-user rows, or the index that one of the two writes meets |
| HierarchyModel.HierarchyStore.LinkManagers | api/src/admin-core/hierarchy-persistence.ts:378-394 | the second pass sets the reporting column of the uploaded employees |
| HierarchyModel.HierarchyStore.PersistHierarchy | api/src/admin-core/hierarchy-persistence.ts:167-403 | the whole upload; a refusal or an index failure leaves every table as it was |
| HierarchyModel.PutEmployeeKeepsIndexes | api/src/admin-core/hierarchy-persistence.ts:315-376 | a write that is not refused keeps one ACTIVE user per phone and one sales user per user |
| HierarchyTheorems.UploadShowsItsEmployees | api/src/admin-core/hierarchy-persistence.ts:291-376 | every upload that gets through leaves each employee of a config role as uploaded, and everybody else untouched |
| HierarchyRows.PersistWritesTheFile | api/src/admin-core/hierarchy-persistence.ts:110-403 | after an upload that gets through, each employee with a role of the config has the user row, level, state and manager that the file says, every other employee and user is as before, and the levels are the config's with the others a million lower |
| HierarchyRows.RowFits | api/src/admin-core/hierarchy-persistence.ts:110-125 | the user row of an employee: role by role code in any case and with blanks, phone or stand-in, name or vacancy, active unless a placeholder |
| HierarchyTheorems.FreeGoesThrough | api/src/admin-core/hierarchy-persistence.ts:333-356 | an employee whose phone is free is written without meeting an index, and never by reclaiming somebody's user |
| HierarchyTheorems.NoIndexHitIffSafe | api/src/admin-core/hierarchy-persistence.ts:169-376 | for a file that passes its own checks, no index is hit on any tables that admit it if and only if the file is safe |
| HierarchyTheorems.MisreadFails | api/src/admin-core/hierarchy-persistence.ts:194-206 | ids are checked trimmed but written as they are: an id with blanks can reclaim the user of the trimmed id and meet the index on it |
| HierarchyTheorems.CollisionFails | api/src/admin-core/hierarchy-persistence.ts:147-149 | a phone of an ACTIVE employee that comes again further down fails the upload from empty tables |
| HierarchyTheorems.ConfigFits | api/src/admin-core/hierarchy-persistence.ts:275-283 | once every level is parked below zero, the config's levels never collide |
| HierarchyTheorems.UploadGoesThroughIff | api/src/admin-core/hierarchy-persistence.ts:259-283 | a safe upload that passes the checks succeeds if and only if no parked level is in the way of the shift |
| HierarchyTheorems.LinksAreTheFiles | api/src/admin-core/hierarchy-persistence.ts:134-143 | after the second pass each uploaded employee reports to the uploaded employee it names, or to nobody, and nobody else changes |
| HierarchyRepeat.CleanIsSafe | api/src/admin-core/hierarchy-persistence.ts:190-224 | trimmed ids and no real phone of the stand-in form make a file safe |
| HierarchyRepeat.StaffRepeats | api/src/admin-core/hierarchy-persistence.ts:285-394 | a clean upload keeps every index and the ownership of stand-in phones, passes the checks again, and repeating it changes no user, sales user or link |
| HierarchyRepeat.LevelsRepeat | api/src/admin-core/hierarchy-persistence.ts:259-283 | the next shift fits if and only if no row outside the config is at, or parked at, a level of the config; then the levels end where they started |
| HierarchyRepeat.SecondUploadSucceedsIff | api/src/admin-core/hierarchy-persistence.ts:160-166 | uploading a clean file again succeeds if and only if nothing was in the way, and then leaves every table as it was |
| HierarchyRepeat.ForgottenLevelBlocksUploads | api/src/admin-core/hierarchy-persistence.ts:266-273 | with one forgotten level that shares a level with the config, the first upload is accepted and the second refused |
| ReportingGraph.DescendantSalesUserIds | api/src/sales/sales-hierarchy-access.helper.ts:67-95 | breadth first finds exactly those whose chain of managers reaches the root |
| ReportingGraph.IsSelfOrDescendant | api/src/sales/sales-hierarchy-access.helper.ts:32-57 | walking up finds the caller if and only if the chain reaches it, cycles included |
| ReportingGraph.EditKeepsAcyclicIff | api/src/admin-core/admin-core.service.ts:853-867 | a new manager closes a cycle if and only if it is in the employee's own subtree |
| ReportingGraph.ReportingTable.SetManager | api/src/admin-core/admin-core.service.ts:834-868 | accepts exactly nobody, or an active manager outside the subtree, and keeps the graph acyclic |
| ReportingGraph.RacingEdits | api/src/admin-core/admin-core.service.ts:853-867 | two edits checked before either is written close a cycle exactly when each new manager is under the other employee |
| ReportingGraph.TwoEditsCloseACycle | api/src/admin-core/admin-core.service.ts:853-867 | two employees at the top, each set to report to the other: both guards pass and the result is a cycle |
| ReportingGraph.OverlayKeepsAcyclicIff | api/src/admin-core/hierarchy-persistence.ts:134-143 | overlaying links among uploaded employees keeps an acyclic graph acyclic if and only if the links are |
| ReportingGraph.UploadOverlaysLinks | api/src/admin-core/hierarchy-persistence.ts:378-394 | the reporting graph after an upload is the old one overlaid with what the file says |
| ReportingGraph.UploadKeepsAcyclicIff | api/src/admin-core/hierarchy-persistence.ts:378-394 | an upload keeps the graph acyclic if and only if its own links are acyclic |
| KycBuckets.BuildKycStatusWhere | api/src/admin-outlets/admin-outlets.service.ts:467-578 | the filter of each bucket, under SQL's three truth values, selects exactly the rows its two-valued condition describes |
| KycBuckets.ReKycFilter | api/src/admin-outlets/admin-outlets.service.ts:512-535 | branches without ids are left out and the rest still select the flagged and the re-KYC owners |
| KycBuckets.NotStartedMeans | api/src/admin-outlets/admin-outlets.service.ts:537-570 | an ownerless row is selected though NOT IN is unknown for it |
| KycBuckets.LatestStatuses | api/src/admin-outlets/admin-outlets.service.ts:644-656 | the map holds the first status of each partner, newest first |
| KycBuckets.FlaggedIds | api/src/admin-outlets/admin-outlets.service.ts:658-676 | exactly the outlets with non-empty flags and no submission under review |
| KycBuckets.ListBucket | api/src/admin-outlets/admin-outlets.service.ts:632-693 | the list of a bucket is exactly the rows in scope that its filter selects, each once |
| KycBuckets.ShownIff | api/src/admin-outlets/admin-outlets.service.ts:50-99 | for each bucket, the outlets that show it: flagged with no submission under way, else by intent, else by the statuses of the owner's latest submission |
| KycBuckets.ReKycListed | api/src/common/kyc-rekyc.helper.ts:28-62 | the re-KYC list holds the flagged outlets with none of the six statuses under way, and the owners of a re-KYC submission that did not decline |
| KycBuckets.ListedWhereShownIff | api/src/admin-outlets/admin-outlets.service.ts:50-99 | list and label agree on every bucket if and only if the outlet is not parked, or cleanly parked |
| KycBuckets.ListedWhereShown | api/src/admin-outlets/admin-outlets.service.ts:447-466 | every outlet is listed in the bucket it shows, and only a parked one in a second |
| KycBuckets.ParkedListedTwice | api/src/admin-outlets/admin-outlets.service.ts:572-577 | a parked outlet whose owner's submission is under review is listed as parked and in the submission's bucket |
| KycBuckets.RepairedListedWhereShown | api/src/admin-outlets/admin-outlets.service.ts:490-501 | with the not-parked condition added to the submission buckets, and flagged ids excluded from the parked one, list and label agree for every outlet |
| OutletLifecycle.OutletBook.UpsertRow | api/src/admin-outlets/admin-outlets.service.ts:1111-1158 | creates pending, reopens what was deactivated, leaves any other state alone, and re-tags the rep |
| OutletLifecycle.OutletBook.DeactivateOutlets | api/src/admin-outlets/admin-outlets.service.ts:1591-1663 | turns off the live outlets, closes their assignments, and stamps and signs out exactly the users of owners left without a live outlet |
| OutletLifecycle.OutletBook.ReactivateOutlets | api/src/admin-outlets/admin-outlets.service.ts:1688-1731 | reopens exactly the outlets that were turned off and not deleted |
| OutletLifecycle.OutletBook.ParkOutlets | api/src/admin-outlets/admin-outlets.service.ts:1754-1795 | parks exactly the pending outlets that were never turned off and are not parked |
| OutletLifecycle.OutletBook.UnparkOutlets | api/src/admin-outlets/admin-outlets.service.ts:1803-1828 | clears exactly the parked intents |
| OutletLifecycle.OutletBook.BulkDeleteOutlets | api/src/admin-outlets/admin-outlets.service.ts:1543-1579 | soft-deletes and turns off exactly the outlets not yet deleted, and closes their assignments |
| OutletLifecycle.ApprovalOpens | api/src/kyc/kyc.service.ts:4833-4862 | approval opens exactly the owner's outlets that are neither deleted nor declined, un-parks them and leaves an old deactivation time |
| OutletLifecycle.DeclineTurnsOff | api/src/kyc/kyc.service.ts:3796-3818 | a rep's "not interested" turns the outlet off and records no deactivation |
| OutletLifecycle.OnlyApprovalOpens | api/src/admin-outlets/admin-outlets.service.ts:1115-1121 | in every run, an outlet that is active or was turned off has been approved earlier |
| OutletLifecycle.ParkedIsPending | api/src/admin-outlets/admin-outlets.service.ts:1758-1779 | in every run, an outlet with an intent is not active and a parked one was never turned off |
| OutletLifecycle.ParkedOutletCanHaveOwner | api/src/admin-outlets/admin-outlets.service.ts:1758-1779 | a run that parks a pending outlet which already has an owner |
| OutletLifecycle.DeletedStayOffIff | api/src/admin-outlets/admin-outlets.service.ts:1109-1147 | a step makes a deleted outlet active if and only if it uploads one that was deactivated before it was deleted |
| OutletLifecycle.RunKeepsDeletedOffIff | api/src/admin-outlets/admin-outlets.service.ts:1109-1147 | in a run deleted outlets stay off throughout if and only if no upload names one that was deactivated first |
| OutletLifecycle.DeletedOutletIsRevived | api/src/admin-outlets/admin-outlets.service.ts:1109-1147 | a run of six steps from nothing that ends with an active, deleted outlet |
| OutletLifecycle.ReactivateUndoesDeactivateIff | api/src/admin-outlets/admin-outlets.service.ts:1591-1731 | deactivate then reactivate gives back the outlet, but for the reactivation time, under an exact condition |
| OutletLifecycle.UnparkUndoesParkIff | api/src/admin-outlets/admin-outlets.service.ts:1754-1828 | park then un-park gives back the outlet unless it was parked already or parking replaced a rep's "not interested" |
| Calendar.DayFromYearIsStandard | api/src/common/ist-date.ts:67-73 | counting the days year by year is the formula of section 21.4.1.3 of ECMA-262 |
| Calendar.ReadAfterMakeIff | api/src/common/business-hours.ts:129-133 | making a day from a date and reading it gives the date back if and only if the date is real |
| Calendar.MakeAfterRead | api/src/common/ist-date.ts:67-73 | reading a day as a date and making it again is the identity |
| Calendar.MonthSpan | api/src/common/ist-date.ts:161-170 | the days from one first of the month to the next are exactly that month |
| Calendar.MonthLengthsAre | api/src/common/ist-date.ts:161-170 | the lengths of the months |
| Calendar.EpochIs | api/src/common/ist-date.ts:67-73 | day 0 is the first of January 1970 |
| IstDate.KeyIffBetweenBounds | api/src/common/ist-date.ts:123-170 | every instant has key k exactly between the bounds of k, if and only if the year of k is 1000 or later |
| IstDate.BoundsAreTheMonth | api/src/common/ist-date.ts:161-170 | between the bounds lie exactly the instants of that Indian month, for every year outside 0 to 99 |
| IstDate.MonthsHaveBounds | api/src/common/ist-date.ts:161-167 | a key is accepted if and only if it is four digits, a dash and a month from 01 to 12 |
| IstDate.IndianDayBegins | api/src/common/business-hours.ts:24-55 | an Indian day begins at 18:30 UTC of the day before |
| IstDate.StartsAgreeIff | api/src/common/ist-date.ts:67-73 | the start of the day rebuilt from its date is the one rounded down if and only if the year is not 0 to 99 |
| IstDate.DaysTileTime | api/src/common/ist-date.ts:67-85 | starts and ends of days tile time with no gap and no overlap |
| IstDate.DateKeyIsTheDay | api/src/common/business-hours.ts:34-40 | two instants have the same date key exactly when they fall on the same Indian day |
| IstDate.ValidIsoDateIff | api/src/common/business-hours.ts:122-134 | a written date is accepted if and only if it is a real Gregorian date from the year 100 on |
| IstDate.OnlyDatesAreValid | api/src/common/business-hours.ts:30-31 | only texts of four digits, two and two with dashes between them are accepted |
| IstDate.ParseHolidayDates | api/src/common/business-hours.ts:106-119 | exactly the valid dates of the stored list |
| IstDate.DecimalOfValueIff | api/src/common/ist-date.ts:123-126 | writing the number that digits stand for gives them back if and only if they have no leading zero |
| BusinessHours.BusinessMsBetween | api/src/common/business-hours.ts:73-89 | the loop returns the number of milliseconds of the interval that fall on an Indian working day |
| BusinessHours.RunningIs | api/src/common/business-hours.ts:42-63 | the clock stands still for the whole Indian day on Saturdays, Sundays and holidays |
| BusinessHours.WithinADay | api/src/common/business-hours.ts:59-63 | within one Indian day the clock runs all the time or not at all, as the day's start tells |
| BusinessHours.CountIsAdditive | api/src/common/business-hours.ts:65-72 | splitting the interval at any instant splits the count |
| BusinessHours.CountIsMonotone | api/src/common/business-hours.ts:65-72 | a later end never counts less, nor more than the time that passed |
| BusinessHours.WeekIs120Hours | api/src/common/business-hours.ts:65-72 | a week without holidays counts exactly 120 hours from any starting instant |
| KycSla.LatestGifsyEntry | api/src/common/kyc-sla-stage.ts:152-163 | the latest time the submission entered the Gifsy queue, or none |
| KycSla.KycStageSla | api/src/common/kyc-sla-stage.ts:113-149 | clock, rounded age, target, breach and freeze of a submission |
| KycSla.SlaShowsClock | api/src/common/kyc-sla-stage.ts:61-149 | by status: which clock, from the last entry to the Gifsy queue or the submission, to the approval, else the review, else the last change of a decided submission, else now, in hours rounded half up |
| KycSla.BreachStays | api/src/common/kyc-sla-stage.ts:141-148 | once breached, a submission stays breached at every later instant, whatever the holidays |
| KycSla.DecisionFreezes | api/src/common/kyc-sla-stage.ts:141-143 | a decided submission with a recorded decision shows the same clock for ever |
| KycSla.ReentryRestarts | api/src/common/kyc-sla-stage.ts:131-134 | coming back to the Gifsy queue restarts its clock |
| KycSla.ListAndDashboardDisagreeIff | api/src/admin-core/admin-core.service.ts:2006-2022 | list and dashboard disagree about a pending submission exactly in the half hour past the target, or past it when the list has no start; then the dashboard says breached |
| KycSla.KycDashboard | api/src/admin-core/admin-core.service.ts:1967-2022 | every counter counts exactly its outlets, the stages add up to all outlets, and within plus breached to the pending ones |
| KycSla.TalliesCountByStatus | api/src/common/kyc-rekyc.helper.ts:66-111 | each counter is the number of outlets whose latest submission has the statuses it stands for, and each late one the number past its hours |
| KycSla.DashboardCoversList | api/src/admin-core/admin-core.service.ts:2006-2022 | the dashboard never counts fewer breaches than the list shows, and as many if and only if no submission is in the gap |
| CreditNames.ResolveCreditFieldNames | api/src/common/credit-field-name.helper.ts:39-109 | oldest first, and those of one moment in the order of the request, each credit takes the first row left of its batch and outlet with its amount and narration, else the first left with its amount, and goes without only if none of its amount is left; exactly the credits are named, each by its row |
| CreditNames.EachTakesFirst | api/src/common/credit-field-name.helper.ts:96-106 | the same for each turn of any replay over any pools of rows |
| CreditNames.ReplayIsTheCredits | api/src/common/credit-field-name.helper.ts:47-88 | the replay is the credits, each once, oldest first |
| CreditNames.NoRowTwice | api/src/common/credit-field-name.helper.ts:90-106 | no row of a batch is taken by two credits |
| CreditNames.CoveredIsExact | api/src/common/credit-field-name.helper.ts:97-101 | when the rows cover the credits, each takes a row with its own amount and narration and the amount alone never decides |
| CreditNames.ReplayIsABijection | api/src/common/credit-field-name.helper.ts:5-9 | when the credits are those of the POINTS rows, in any order and with any ties, replaying pairs them one to one and keeps amount and narration |
| CreditNames.EachGetsItsOwnRow | api/src/common/credit-field-name.helper.ts:84-106 | when the credits of a batch were made at strictly later times in row order, each gets its own row |
| LeafFirstDeletion.SelfReferencingTable.DeleteLeaves | api/prisma/wipe-tenant-data.ts:482-486 | deletes exactly the rows without a child |
| LeafFirstDeletion.SelfReferencingTable.DeleteLeafFirst | api/prisma/wipe-tenant-data.ts:474-499 | what is left, the total, and exactly when the fallback is taken |
| LeafFirstDeletion.LeftIsDeep | api/prisma/wipe-tenant-data.ts:474-490 | after n rounds exactly the rows are left that have something n steps below them |
| LeafFirstDeletion.ForestIsNeverStuck | api/prisma/wipe-tenant-data.ts:488-496 | in a forest the fallback is never taken, so no row with a child is ever deleted |
| LeafFirstDeletion.ForestIsEmptiedIff | api/prisma/wipe-tenant-data.ts:866-888 | a forest is emptied if and only if no chain goes up a thousand steps, surely when it has at most a thousand rows |

## Left out

- Access-token signing, OTP login, and the vendor and tenant-grant gates: a login and a gate's refusal are single steps of the session model. Of the request guard, its test of the bearer's session row and its extension of the expiry are modelled; tokens from before session ids, which it matches by user, are not.
- A statement that waits for a row lock of an open deactivation simply has not happened yet; how long it waits, and the deadlocks such waiting could cause, are not part of this model.
- A database statement that fails on its own: the log-out that a replay starts, and the extension of an expiry, are carried out whenever they are issued, although the code lets them fail quietly.
- `forceLogoutAll` sweeps with a second clock reading; the theorems speak of the reading that becomes the stamp.
- SessionTheorems.LogoutClearsAncestry: needs the three rules named above, which the code does not enforce; SessionLimits shows a run for each.
- OwnerGroups.RunKeepsUnique: needs the exact condition at each step, which the code does not check; OwnerGroupLimits has a run for each way to fail, the re-link of a soft-deleted outlet among them.
- OwnerGroups.RunKeepsOnePan: needs the exact condition at each detail write, which the code does not check; OwnerGroupLimits has a run that fails.
- LockProtocol.RunKeepsUniqueness: a commit must still find the rows it read outside its locks (LockCommits has the exact condition, LockLimits a run that fails); un-grouping and deactivating a parent take no identity lock and are only in the sequential runs. The group's PAN has no lock of its own.
- OwnerGroups.OwnerRegistry.Link: the group is the one read when the request started, but the owner's details and the parent's state are read with the row; that these too can be old when requests overlap is what LockProtocol and LockLimits are about.
- KYC approval that leaves a group, group classification, carried-forward documents and the phone rule of the KYC service: KYC enters as one checked detail write.
- Parents with details stored before values were made canonical: stored values are canonical from the start.
- Case folding and blanks outside ASCII; regular expressions and number parsing beyond the forms used.
- Uploaded employees that are null or not objects, ids that are not strings, the returned counters of an upload, and the tenant-specific display labels of levels.
- Emails, audit rows and notifications, pagination and text search of the list, and submissions whose creation times tie.
- The display percentages and averages of the dashboard; ages are exact rationals in milliseconds.
- The range limit of ECMA-262 time values and invalid dates; all instants are integers.
- Ties between credits made at the same time: they keep amount and narration, but two rows with the same amount and narration may swap their names.
- Rows of other tenants that point at a deleted row.
