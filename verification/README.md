# ROTASAVINGS, verified

A rotating-savings group (ROSCA) collects a fixed contribution from every member in
every cycle and pays the pot of each cycle to one member, in a fixed order. This
project models the engine that runs such groups and proves what it guarantees about
money, obligations, deadlines and fairness, together with the smaller mechanisms
around it: the on-chain twin of a group, the chain-to-cache event pipeline, the
reputation fold, the group optimizer, the liquidity predictor, the rate limiter and
the key and commitment encodings.

`dafny verify dfyconfig.toml` checks everything.

## How it is built

| file | what it holds |
|---|---|
| `Sums.dfy` | weighted sums over logs, double counting, counting facts about sets |
| `Domain.dfy` | entities, lifecycle transitions, validation, schedule, escrow fold |
| `Rotation.dfy` | one group as a state machine (`Rota`, `Step`, `Apply`, `Run`) and its invariant |
| `RotationProofs.dfy` | every step keeps the invariant |
| `RotationTheorems.dfy`, `DeadlineTheorems.dfy`, `Obligations.dfy`, `Fairness.dfy`, `Assembly.dfy` | theorems about every reachable state and every run |
| `StepLaws.dfy` | every call field by field, and deadlines and payouts over every run, with no guard or effect of the machine named |
| `Tables.dfy`, `Platform.dfy` | the service over its flat store as a class; each call is one step of the group it names and leaves the others alone |
| `MemberSlices.dfy` | the member lists as slices over shared arrays |
| `Contract.dfy`, `ContractTheorems.dfy` | the on-chain contract as a class, and what every run of it keeps |
| `Refinement.dfy`, `Lagging.dfy` | the service's deadline settlement as on-chain settlements; the contract that lags behind early settlements, and how it catches up |
| `Pipeline.dfy`, `Reputation.dfy` | chain, bounded channel, indexer, per-user logs; the reputation fold |
| `Optimizer.dfy`, `Liquidity.dfy`, `RateLimit.dfy`, `Encoding.dfy` | the smaller mechanisms |

The service's calls are specified by the functions of `Rotation`: each postcondition
says that the named group became `Apply(before, step)` and that every other group is
unchanged. The theorems are about `Reachable` groups, those that some
sequence of steps leads to from creation; `Service.Valid()` says that every group of
the store is one of these.

## Assumptions

- Each service call is one atomic step. The code locks only inside the store and the chain.
- Store, chain and payment calls succeed, as the in-memory store, the in-memory chain
  and the mock payment provider do. The errors the code discards (escrow entries,
  lifecycle transitions at closure) therefore never arise; for the transitions this is
  proved.
- Identifiers of new groups, requests and invitations are fresh; they are parameters.
  The current time is a parameter of every call that reads the clock.
- Money, counts and time are unbounded integers (time in nanoseconds), except where
  width matters and is modelled: `itoa` at 64 bits, the contract's deadline at 256 and
  64 bits. Floating-point numbers are exact reals.
- A scheduler tick sees the first 100000 groups; completeness over all groups is
  proved for at most that many.
- The contract is authorised on its ledger and is deployed with the members the group has
  at activation (see below for a deployment at creation); the group's cycle length is a
  whole number of seconds. Times before 2^64 seconds are considered.
- Digests are an arbitrary function of their preimage, without collisions where a
  statement needs that.

## Where code and documentation differ

The model follows the code in each case, and the difference is a theorem.

- A CLOSED group may have open cycles and money in escrow: cycles can be settled out of
  order by hand or by a last missing contribution (`ClosedWithOpenCycle`,
  `ClosureIsCleanExactly`, `ClosedBalance`).
- Defaults are recorded before settlement only on the scheduler's path; the organizer's
  early settlement records none (`SettledCyclesRecorded`, `ShortfallAccounted`).
- One user's two pending requests can both be approved, listing the user twice while
  the group is CREATED (`ApprovedTwice`, `StepDistinct`).
- A validated payout order may name a member twice and omit another; then the rotation
  is unfair (`FullRotationIsFair`, `UnfairRotation`).
- The contract accepts contributions the service refuses: to cycles outside the schedule
  and, while it lags behind, to cycles the service has settled or closed
  (`LaggingAcceptance`, `RevealAfterSettlement`).
- The group's contract is deployed when the group is created, when its organizer is the
  only member; such a contract rejects every order the service activates with
  (`DeployedTooEarly`). The other statements are for a contract deployed at activation.
- A settlement by hand with somebody missing is the one thing the contract's ledger cannot
  reproduce: it records the defaults the service did not (`EveryRunSettlesOnChain`).
- The contract casts the time from activation to a deadline to 64 bits; a longer span is cut
  short and the cycle can be settled before it is due (`NeverEarlyExactly`).
- A default's proof hash omits the cycle index and a payout's names only the payee
  (`DefaultProofForgetsCycle`, `PayoutProofNamesPayee`).
- The cache is described as rebuildable by replay, but nothing replays: an indexer more
  than 64 events behind loses events for good (`LosslessMeansClose`, `BurstKeepsPrefix`).
- The limiter's sweep is unobservable, and its rate bound holds, only for some parameters
  (`SweepingIsInvisibleExactly`, `WindowBoundExactly`, `WindowBoundFails`); what holds for
  all of them is `AnyWindowBound`.

## Model

| member | source | states |
|---|---|---|
| `RotationTheorems.ReachableInv` | internal/app/settlement.go:24-86 | the group invariant (roster, schedule, books) holds in every state reachable from creation by any sequence of calls |
| `RotationProofs.StepKeepsInv` | internal/app/cycles.go:132-197 | every call, accepted or refused, keeps the group invariant |
| `RotationTheorems.EscrowConserved` | internal/app/settlement.go:24-75 | in every reachable state: credits = payouts' gross + balance; the balance is the sum of contributions to unsettled cycles and never negative |
| `RotationTheorems.AtMostOneObligationEvent` | internal/app/cycles.go:147-172 | no member is ever both credited with a cycle and charged with missing it, nor either twice |
| `Obligations.ObligationsCompleteExactly` | internal/app/settlement.go:91-104 | over every run: a settled cycle has exactly one made or missed event for every member if and only if no settlement by hand with somebody missing happened to it |
| `RotationTheorems.OverdueSettlementRecordsDefaults` | internal/app/deadlines.go:51-69 | deadline settlement records exactly one default for each member who did not pay and none for anybody else |
| `RotationTheorems.ShortfallAccounted` | internal/app/settlement.go:28-67 | gross + shortfall = contribution x members for every payout; the shortfall equals the recorded missed amounts if and only if the cycle's defaults were recorded |
| `RotationTheorems.SettledCycleIsFrozen` | internal/app/settlement.go:20-22 | no call changes anything on record about a settled cycle, its contribution rows, events, escrow lines, payout and flag included, and the logs only grow |
| `RotationTheorems.SettledCycleIsFrozenForever` | internal/app/settlement.go:20-22 | the same over every continuation of every run; a settled cycle never becomes unsettled |
| `Obligations.SettlingStepRecords` | internal/app/settlement.go:14-16 | the call that settles a cycle leaves one obligation event per member if and only if it is not a settlement by hand with somebody missing |
| `Obligations.SettledCyclesRecorded` | internal/app/settlement.go:91-104 | over every run: the obligation record of a settled cycle is complete if and only if no settlement by hand with somebody missing happened to it |
| `DeadlineTheorems.TickExact` | internal/app/deadlines.go:22-45 | after a tick a cycle of an ACTIVE group is settled if and only if it was before or its deadline has passed |
| `DeadlineTheorems.TickCompleteAndIdempotent` | internal/app/deadlines.go:17-48 | a tick leaves no overdue open cycle in an ACTIVE group, counts exactly the newly settled cycles, stays within TotalCycles + 1 rounds, and repeating it does nothing |
| `DeadlineTheorems.TickSettlesOnlyOverdue` | internal/app/deadlines.go:32-38 | a tick settles no cycle before its deadline and none without recording its defaults |
| `DeadlineTheorems.DrainClosesClean` | internal/app/deadlines.go:26-45 | a tick that takes a group out of ACTIVE leaves it CLOSED with every cycle settled |
| `DeadlineTheorems.DrainedClosureIsEmpty` | internal/app/deadlines.go:26-45 | a group closed by a tick holds no money |
| `DeadlineTheorems.DiscardedTransitionsSucceed` | internal/app/settlement.go:80-86 | the two lifecycle transitions whose errors settlement discards never fail |
| `DeadlineTheorems.ActiveUntilLastSettled` | internal/app/settlement.go:80-86 | after activation a group is ACTIVE exactly while its last cycle is unsettled, and CLOSED otherwise |
| `DeadlineTheorems.LifecycleIsOneWay` | internal/domain/group.go:125-137 | no call moves a group backwards or rewrites its identity or rules; members, order and schedule are frozen from activation on |
| `DeadlineTheorems.ClosedBalance` | internal/app/settlement.go:80-86 | a CLOSED group's escrow is empty if and only if nobody paid into a cycle that is still open |
| `DeadlineTheorems.ClosureIsCleanExactly` | internal/app/settlement.go:91-104 | the call that closes a group leaves all cycles settled if and only if the cycle it settled was the current one |
| `DeadlineTheorems.ClosedWithOpenCycle` | internal/app/settlement.go:91-104 | a concrete run that ends CLOSED with an open cycle and money still in escrow |
| `DeadlineTheorems.CurrentExists` | internal/app/cycles.go:85-96 | if any cycle up to c is open, some cycle up to c is the current one |
| `Domain.DeadlinesIncrease` | internal/domain/group.go:139-152 | deadlines increase by at least one cycle length per cycle |
| `Fairness.FullRotationTotals` | internal/app/cycles.go:27-34 | after a full rotation each member paid n contributions and received n contributions per turn in the order |
| `Fairness.FullRotationIsFair` | internal/domain/group.go:105-121 | after a full rotation every member gets exactly one payout, and gets back what they put in, if and only if the payout order has no repeats |
| `Fairness.UnfairRotation` | internal/domain/group.go:105-121 | a concrete reachable full rotation of a validated order that names one member twice: both pay 200, one receives 400, the other nothing |
| `Fairness.OneTurnEach` | internal/domain/group.go:105-121 | a validated order gives every member exactly one turn if and only if it has no repeats |
| `Fairness.DefaultOrderIsFair` | internal/app/cycles.go:27-31 | an empty order means join order, which is repeat-free and stays so in every continuation |
| `Assembly.AssemblyInvariant` | internal/app/groups.go:306-335 | in every reachable state the members are exactly the users with an active membership, the organizer among them, within MaxMembers; from activation on without repeats |
| `Assembly.RosterFrozenForever` | internal/app/groups.go:278-302 | members, order, schedule and amount of an activated group never change again |
| `Assembly.PaymentCountIsExact` | internal/app/cycles.go:199-205 | in every reachable activated state the number of payments reaches the number of members if and only if every member has paid |
| `Assembly.ActivationExact` | internal/domain/group.go:94-123 | a CREATED group can be activated with an order if and only if it has two or more members, no repeats, and the order is empty or a list of members of the right length |
| `Assembly.StepDistinct` | internal/app/groups.go:175-185 | a call keeps a repeat-free roster so if and only if it does not let in a current member |
| `Assembly.RosterDistinct` | internal/app/groups.go:175-185 | over every run in which no join lets in a current member the roster stays repeat-free |
| `Assembly.ApprovedTwice` | internal/app/groups.go:175-185 | two approved requests of one user list the user twice; no order can activate the group until the user leaves, and then every copy is gone |
| `Assembly.LeavingUndoesJoining` | internal/app/groups.go:318-335 | a newcomer who leaves again leaves the roster as it was |
| `RotationProofs.CountTestExact` | internal/app/cycles.go:199-205 | the count comparison decides whether everybody has paid, given distinct members and sound contribution records |
| `StepLaws.DeadlinesOverRuns` | internal/app/deadlines.go:27-45 | after an activation and any run since: a tick at t settles cycle c of an ACTIVE group if and only if it was settled or t > activation + (c + 1) x cycle length; outside ACTIVE a tick does nothing |
| `StepLaws.FirstTick` | internal/domain/group.go:139-152 | the first tick after an activation settles cycle c if and only if it comes more than (c + 1) cycle lengths later |
| `StepLaws.PayoutsOverRuns` | internal/app/cycles.go:27-34 | in every run from an activation, cycle c is paid to position c of the chosen order (join order if empty), the amount times the number of payments, the rest of the full pot noted as missing |
| `StepLaws.ScheduleOverRuns` | internal/domain/group.go:139-152 | in every state after an activation the schedule has exactly one row per position of the chosen order, with its payee and deadline |
| `StepLaws.OnePayoutPerCycle` | internal/app/settlement.go:61-78 | in every reachable state a cycle has one payout if it is settled and none otherwise |
| `StepLaws.JoinInFields` | internal/app/groups.go:306-315 | exactly when CREATED, with room and not the organizer, the user is appended with an active membership; otherwise nothing changes |
| `StepLaws.DropInFields` | internal/app/groups.go:318-335 | exactly when CREATED, with a membership and not the organizer, every copy of the user leaves the list, the others keep their order, and the membership is marked Left or Removed as asked |
| `StepLaws.WithoutIsFilter` | internal/app/groups.go:323-328 | taking a user off a list is filtering out every copy |
| `StepLaws.ActivateInFields` | internal/app/cycles.go:27-53 | the exact condition of an activation in members and order, and the group and schedule it leaves, row by row |
| `StepLaws.ContributeInFields` | internal/app/cycles.go:167-195 | the exact condition of a contribution, its row, credit and event, and the payout of the whole pot exactly when it was the last one missing |
| `StepLaws.SettleInFields` | internal/app/settlement.go:24-86 | settlement by hand pays the scheduled payee the amount times the payments and closes the group after its last cycle; a settled or unknown cycle is left alone |
| `StepLaws.TickInFields` | internal/app/deadlines.go:51-69 | an overdue first open cycle gets one default per member without payment, in member order, before its payout |
| `Platform.Service.CreateGroup` | internal/app/groups.go:22-62 | the creator must be known, active and approved and the group have a name, a positive amount and cycle length and a limit of at least two members; else exactly that error and nothing changes; the new group in fields, at the start of its run, all others untouched |
| `Platform.Service.MembersWereCleared` | internal/app/groups.go:27-29 | over every sequence of calls from the empty service: whoever is in a group has been active with identity approved at some moment up to now |
| `Platform.Service.SaveUser` | internal/store/memory.go:83-88 | writes one user record and nothing else; users are never deleted |
| `Platform.Service.RequestToJoin` | internal/app/groups.go:121-153 | succeeds exactly for a known, active and approved non-member of a CREATED group with room; adds one pending request and nothing else; the error of every refusal, Forbidden for a user lacking either mark |
| `Platform.Service.DecideJoinRequest` | internal/app/groups.go:156-195 | succeeds exactly for the organizer's decision on a pending request (with room, if approving); is the join step on that group or nothing; the error of every refusal |
| `Platform.Service.Invite` | internal/app/groups.go:198-226 | succeeds exactly for the organizer inviting a known non-member of a CREATED group; adds one pending invitation; the error of every refusal |
| `Platform.Service.RespondInvitation` | internal/app/groups.go:229-270 | succeeds exactly for the invitee's answer to a pending invitation, which to accept takes an active and approved user and room in a CREATED group; is the join step on that group or nothing; the error of every refusal |
| `Platform.Service.LeaveGroup` | internal/app/groups.go:273-285 | is the drop step on the named group, refused exactly outside CREATED, for the organizer and for users without a membership, each with its error |
| `Platform.Service.RemoveMember` | internal/app/groups.go:288-303 | the same on the organizer's behalf, with the error of every refusal |
| `Platform.Service.AddMember` | internal/app/groups.go:306-315 | its two writes together are one join step of the group machine |
| `Platform.Service.DropMember` | internal/app/groups.go:318-335 | its two writes together are one drop step; without a membership nothing changes |
| `Platform.Service.ActivateGroup` | internal/app/cycles.go:15-60 | is the activation step, whose outcome is that of ActivateInFields; the exact success condition, the returned group and the error of every failing branch |
| `Platform.Service.InstallSchedule` | internal/app/cycles.go:44-53 | saving the group and its cycles one by one amounts to the schedule of the activation step |
| `Platform.Service.SubmitContribution` | internal/app/cycles.go:132-197 | is the contribution step, including the early settlement it may trigger, with the exact success condition and errors |
| `Platform.Service.EarlySettlement` | internal/app/cycles.go:187-195 | settles the cycle if and only if every member has paid it |
| `Platform.Service.AllContributed` | internal/app/cycles.go:199-205 | the count test returns whether every member has paid |
| `Platform.Service.CurrentCycle` | internal/app/cycles.go:85-96 | returns the open cycle of least index, or NotFound exactly when none is open |
| `Platform.Service.SettleGroupCycle` | internal/app/settlement.go:19-88 | loops over contributions and five writes; the new state is the settlement of the group machine, an error changes nothing |
| `Platform.Service.MarkSettled` | internal/app/settlement.go:69-86 | the flag and, after the last cycle, the walk to CLOSED |
| `Platform.Service.SettleCycle` | internal/app/settlement.go:91-104 | is the settlement step for the organizer, with the exact success condition and errors |
| `Platform.Service.AdminSettleCycle` | internal/app/admin.go:132-147 | the same without the organizer check, errors and payout included |
| `Platform.Service.SettleOverdueCycle` | internal/app/deadlines.go:51-69 | records the defaults in member order, then settles |
| `Platform.Service.DrainActive` | internal/app/deadlines.go:27-45 | the guarded, reloading loop computes the unguarded drain: the guard never ends it early, and the count is exact |
| `Platform.Service.DrainGroup` | internal/app/deadlines.go:23-46 | one pass over one group is one deadline step of that group and leaves the others alone |
| `Platform.Service.ProcessDeadlines` | internal/app/deadlines.go:17-48 | row by row: a cycle of an ACTIVE group among the first 100000 is settled afterwards exactly if it was or its deadline has passed; other groups are untouched, the result is the number of rows that went from open to settled, and nothing changes when it is 0 |
| `Platform.Service.ProcessDeadlinesTwice` | internal/app/deadlines.go:16-48 | with at most 100000 groups: every group is drained, the first count is the number of rows settled, a second tick at the same time returns 0 and leaves tables, users and requests exactly as they were |
| `Platform.Service.ListGroups` | internal/store/memory.go:164-179 | the first page: the oldest groups, at most the limit, without repeats |
| `Platform.Service.ListCyclesByGroup` | internal/store/memory.go:313-325 | exactly the group's cycles, in index order |
| `Platform.Service.ListContributionsByCycle` | internal/store/memory.go:347-358 | exactly the cycle's contributions: their number, their total and their users |
| `Tables.TickedRows` | internal/app/deadlines.go:39-47 | the count of a tick over a page is the number of cycle rows it turned from open to settled |
| `Tables.TickedRowExactly` | internal/app/deadlines.go:17-48 | a tick settles the row of a cycle of an ACTIVE group on the page exactly if its deadline has passed, and keeps it settled if it was |
| `Tables.StepKeepsGroupsOk` | internal/store/memory.go:146-162 | one group's step keeps every group of the flat tables at a point of its own run |
| `Tables.CreationIsolated` | internal/app/groups.go:37-60 | creating a group touches no row of any other group |
| `Domain.Validate` | internal/domain/group.go:94-123 | accepts exactly the well-formed groups |
| `Domain.HasMember` | internal/domain/group.go:64-71 | finds exactly the members |
| `Domain.Cycles` | internal/domain/group.go:141-152 | one cycle per position of the order, which DeadlinesOverRuns fixes: paid to that position, due c + 1 cycle lengths after the activation |
| `Domain.EscrowBalance` | internal/domain/escrow.go:31-42 | credits minus debits |
| `MemberSlices.RosterStore.Create` | internal/app/groups.go:37-47 | a new group starts with an array of its own holding its organizer |
| `MemberSlices.RosterStore.AddMember` | internal/app/groups.go:306-315 | append in place or into a larger array: the stored list grows by the user, other groups are unchanged, and an older header still reads the old list |
| `MemberSlices.RosterStore.DropMember` | internal/app/groups.go:318-335 | the in-place filter: the stored list loses every copy of the user, other groups are unchanged, and the whole backing array afterwards is stated |
| `MemberSlices.FilterInPlace` | internal/app/groups.go:323-328 | the compaction loop: kept members at the front in order, the rest of the array untouched |
| `MemberSlices.StaleViewUnchanged` | internal/store/memory.go:153-162 | a header read before a departure still shows the old list if and only if the user stood nowhere but at its end |
| `MemberSlices.StaleViewRepeatsLast` | internal/app/groups.go:323-328 | otherwise, in a repeat-free list, it shows the last member twice and the departed not at all |
| `Contract.RotasavingsGroup.Activate` | contracts/src/RotasavingsGroup.sol:83-89 | succeeds exactly for the organizer, in CREATED, with an order of the right length; the new storage; the reason of every revert |
| `Contract.RotasavingsGroup.Contribute` | contracts/src/RotasavingsGroup.sol:94-105 | succeeds exactly for a member's first contribution to an unsettled cycle of an ACTIVE group with the matching commitment; the new storage, which RevealInFields spells out; the reason of every revert |
| `Contract.RotasavingsGroup.Settle` | contracts/src/RotasavingsGroup.sol:114-139 | succeeds exactly for the organizer when ACTIVE, due, unsettled and in range, the reason of every revert; when due is what DueExactly and NeverEarlyExactly put in seconds; the new storage, which SettleInFields spells out; a revert changes nothing |
| `ContractTheorems.RevealInFields` | contracts/src/RotasavingsGroup.sol:94-105 | the exact condition of a contribution on-chain, and its commitment and ledger record |
| `ContractTheorems.SettleInFields` | contracts/src/RotasavingsGroup.sol:114-139 | a settlement on-chain records one default per silent member, in member order, then pays the scheduled payee the amount times the members who contributed, and closes the group after its last cycle |
| `ContractTheorems.DueExactly` | contracts/src/RotasavingsGroup.sol:108-116 | while activation + (c + 1) x cycle length fits 64 bits, a settlement of cycle c is accepted at second t if and only if ACTIVE, unsettled, in the order, and t is at or past that second |
| `ContractTheorems.NeverEarlyExactly` | contracts/src/RotasavingsGroup.sol:108-112 | some settlement of an open cycle is accepted before activation + (c + 1) x cycle length if and only if the span is cut to 64 bits and then fits |
| `ContractTheorems.NothingSettledEarly` | contracts/src/RotasavingsGroup.sol:108-139 | in every accepted run whose last deadline fits 64 bits no cycle is settled by a call stamped before its deadline |
| `Refinement.GuardsCompared` | internal/domain/cycle.go:16-19 | the service's deadline test and the contract's, compared both ways: overdue to the service exactly after the contract's second, or within it once the fraction of the activation's second has passed |
| `Refinement.OverdueOnChain` | contracts/src/RotasavingsGroup.sol:108-112 | the same for every row of a group and the contract that mirrors it |
| `Refinement.ActivationMirrors` | contracts/src/RotasavingsGroup.sol:83-89 | activating a contract deployed with the members of that moment leads to the corresponding state |
| `Refinement.DeployedTooEarly` | internal/app/groups.go:50-54 | a contract deployed when the group is created, with its organizer as the only member, rejects every order the service can activate with |
| `Refinement.ContributionMirrors` | contracts/src/RotasavingsGroup.sol:94-105 | the three writes of a contribution, before any early settlement they trigger, lead to corresponding states, ledger record included |
| `Refinement.ContractAcceptsMore` | contracts/src/RotasavingsGroup.sol:94-105 | while the two states correspond, what the contract accepts beyond the service is exactly contributions to cycles outside the schedule |
| `Refinement.GuardImpliesContractGuard` | contracts/src/RotasavingsGroup.sol:108-116 | the service's deadline test in nanoseconds implies the contract's in truncated 64-bit seconds |
| `Refinement.OverdueSettlementRefines` | contracts/src/RotasavingsGroup.sol:114-139 | a deadline settlement is one the contract accepts at that moment, with the same records in the same order, settled cycles and state |
| `ContractTheorems.CallKeepsBooks` | contracts/src/RotasavingsGroup.sol:94-139 | every accepted call keeps the contract's books: one Made record per contribution, one Missed per member missing from a settled cycle, one payout of exactly what was collected per settled cycle, CLOSED exactly when the last cycle is settled |
| `ContractTheorems.ActivatedBooks` | contracts/src/RotasavingsGroup.sol:83-139 | so after every run of accepted calls from activation on |
| `Lagging.LaggingAcceptance` | contracts/src/RotasavingsGroup.sol:94-105 | a contract that lags behind the service accepts a contribution exactly when it is new to it and either the service would accept it, or the cycle is outside the schedule, settled by the service only, or open in a group closed by the service only |
| `Lagging.RevealAfterSettlement` | contracts/src/RotasavingsGroup.sol:94-105 | after a settlement by hand a member who was missing can still contribute on-chain, and the contract then holds more for the cycle than the service paid out |
| `Lagging.LateSettlementExact` | contracts/src/RotasavingsGroup.sol:114-139 | settling on-chain later a cycle the service settled early: same payee always; same amount if and only if nobody contributed on-chain only; same amount and defaults if and only if, besides, the service had recorded its defaults |
| `Lagging.StepFollowed` | internal/app/cycles.go:167-195 | every step of the service, early settlements included, is followed by at most one accepted contract call and leaves the contract behind the service |
| `Lagging.CallStaysBehind` | contracts/src/RotasavingsGroup.sol:94-139 | whoever calls it, the contract stays behind the service as long as it settles only what the service has settled |
| `Lagging.CatchUpExactly` | contracts/src/RotasavingsGroup.sol:108-139 | once all deadlines have passed the contract can settle everything the service has settled if and only if it is still ACTIVE or has nothing to settle |
| `Lagging.LedgersAgreeExactly` | contracts/src/RotasavingsGroup.sol:114-139 | a contract that has caught up holds the same ledger records, each as often, if and only if every default was recorded and nobody contributed on-chain only |
| `Lagging.WholeRunFollowed` | internal/app/settlement.go:19-104 | any run of the service from an activation on has a run of accepted contract calls ending with the same settled cycles and state, and with the same ledger if and only if the run has no settlement by hand with somebody missing |
| `Lagging.EveryRunSettlesOnChain` | contracts/src/RotasavingsGroup.sol:83-139 | the same from the activation itself, for every order, run and clock within 64 bits |
| `Refinement.SchedulerRefinesContract` | internal/app/deadlines.go:17-48 | a whole tick is a run of accepted on-chain settlements, one per settled cycle, ending in the corresponding state |
| `Optimizer.ByRiskIsStableSort` | internal/intelligence/optimizer.go:31-33 | the candidates sorted by risk, ties in their original order |
| `Optimizer.DraftedIsPicks` | internal/intelligence/optimizer.go:38-50 | the bouncing loop deals every group exactly one candidate per round: position i mod n on even rounds, mirrored on odd ones |
| `Optimizer.SnakeDraft` | internal/intelligence/optimizer.go:38-50 | the loop with g and dir stays in bounds and puts candidate i in the seat given by i div n and i mod n |
| `Optimizer.Bounce` | internal/intelligence/optimizer.go:44-49 | one bounce of g and dir is the step from seat i to seat i + 1 |
| `Optimizer.DraftPartitions` | internal/intelligence/optimizer.go:41-50 | after every step of the loop the groups together hold exactly the candidates dealt so far |
| `Optimizer.DraftIsPartition` | internal/intelligence/optimizer.go:26-57 | every proposed group has exactly the requested size, and together they are a permutation of the lowest-risk candidates filling whole groups |
| `Optimizer.OptimizeGroups` | internal/intelligence/optimizer.go:26-57 | nothing when there are too few candidates for one group; otherwise, of every proposal returned: its users are the drafted group's in order, average risk times size is their total risk, survival is one minus the collapse probability, and any two averages differ by at most the placed range over the group size |
| `Optimizer.DraftIsBalanced` | internal/intelligence/optimizer.go:38-50 | any two groups' risk sums differ by at most the range of the placed risks, so their averages by at most that over the group size |
| `Optimizer.PicksBalanced` | internal/intelligence/optimizer.go:38-50 | after every round the difference of two groups lies between the spreads of the even and of the odd rounds |
| `Optimizer.LeftOutAreRiskiest` | internal/intelligence/optimizer.go:35-41 | fewer than a group's worth are left out, each at least as risky as everybody placed |
| `Optimizer.SummariseGroup` | internal/intelligence/optimizer.go:59-74 | the proposal names the users in order, average risk times size is their total risk, and survival is one minus the collapse probability |
| `Optimizer.ProposalMeaning` | internal/intelligence/optimizer.go:52-74 | what OptimizeGroups promises follows for every list of summaries of the drafted groups |
| `Optimizer.SummaryDescribes` | internal/intelligence/optimizer.go:59-74 | a summary says of its group: users in order, average risk times size is total risk, survival is one minus the collapse probability |
| `Optimizer.DraftSeats` | internal/intelligence/optimizer.go:38-50 | with n groups, round k's pick of group j is candidate k x n + j of the sorted list on even rounds and k x n + n - 1 - j on odd ones |
| `Optimizer.GroupsCombine` | internal/intelligence/optimizer.go:59-74 | survival multiplies and risk adds up when groups are put together |
| `Optimizer.SurvivalBounds` | internal/intelligence/optimizer.go:59-74 | for risks that are probabilities, survival is at most every member's chance of not defaulting and at least one minus all risks, one and zero exactly at the extremes |
| `Optimizer.SurvivalIsNoCollapse` | internal/intelligence/liquidity.go:41-47 | a proposed group's survival is one minus the collapse probability the liquidity predictor gives it |
| `RateLimit.RateLimiter.Allow` | internal/httpapi/ratelimit.go:40-60 | a new client passes; any other exactly with a whole token after refilling to at most the burst; the bucket keeps what is left, other clients theirs |
| `RateLimit.RateLimiter.Gc` | internal/httpapi/ratelimit.go:63-76 | drops exactly the buckets last used more than 300 seconds before |
| `RateLimit.RequestSpends` | internal/httpapi/ratelimit.go:40-60 | for any limits and buckets: passes if and only if the client is new or has a whole token, then costs exactly one and leaves other clients alone; with a burst of at least one tokens stay in [0, burst] |
| `RateLimit.RateBound` | internal/httpapi/ratelimit.go:40-60 | from any sound state over any stretch without sweeps, or with sweeps that come after a full refill, a client gets at most what it had plus what flowed in |
| `RateLimit.WindowBoundExactly` | internal/httpapi/ratelimit.go:40-76 | for every non-negative rate: in every window of every run, sweeps included, a client gets at most burst + rate x length requests through if and only if burst is at least one and an idle bucket refills within 300 seconds |
| `RateLimit.WindowBoundFails` | internal/httpapi/ratelimit.go:40-76 | concrete windows that break the bound: two requests with a sweep between them, and one request on a burst below one |
| `RateLimit.AnyWindowBound` | internal/httpapi/ratelimit.go:40-76 | for every non-negative rate, every burst and all sweeps: at most max(1, burst) + max(rate, max(1, burst) / 300) x length requests pass in a window |
| `RateLimit.SweepingIsInvisibleExactly` | internal/httpapi/ratelimit.go:62-76 | no run answers differently because of sweeps if and only if burst is at least one and an idle bucket refills within 300 seconds |
| `RateLimit.SweepsUnnoticed` | internal/httpapi/ratelimit.go:62-76 | with those parameters every run with arbitrary sweeps answers like the run without them |
| `RateLimit.SweepNoticed` | internal/httpapi/ratelimit.go:62-76 | without a full refill in time there is a run whose answers a sweep changes |
| `Pipeline.MemChain.Emit` | internal/chain/memchain.go:102-113 | each subscriber is offered the event once and drops it exactly when its 64 slots are full: one emit step of its pipeline |
| `Pipeline.MemChain.Subscribe` | internal/chain/memchain.go:66-70 | a fresh, empty, open channel at the end of the list |
| `Pipeline.MemChain.Cancel` | internal/chain/memchain.go:72-83 | removes the subscriber and closes its channel, so nothing is ever sent on a closed channel; cancelling twice is harmless |
| `Pipeline.Indexer.Receive` | internal/indexer/indexer.go:36-53 | one turn of the loop moves the oldest buffered event to the cache, whose per-user logs are exactly what was projected |
| `Pipeline.Indexer.CatchUp` | internal/indexer/indexer.go:36-53 | run until it would block, the loop projects everything buffered, in order |
| `Pipeline.Indexer.Answer` | internal/app/auth.go:142-148 | what the service answers about a user is the fold of everything projected, read off that user's log alone |
| `Pipeline.ReputationCache.Append` | internal/store/memory.go:406-411 | appends to the event's user's log only |
| `Pipeline.DeliveryInOrder` | internal/chain/memchain.go:102-113 | under every interleaving, projected then buffered events are the emitted ones in order minus exactly those that met a full buffer |
| `Pipeline.DeliveryComplete` | internal/chain/memchain.go:106-111 | the pipeline is complete if and only if no emit met a full buffer |
| `Pipeline.LosslessMeansClose` | internal/chain/memchain.go:66-67 | nothing is lost if and only if the indexer is never more than 64 events behind |
| `Pipeline.CacheAgrees` | internal/indexer/indexer.go:36-53 | drained and lossless, the cached summary of a user is the fold over the whole emitted log |
| `Pipeline.CacheNeverOverstates` | internal/indexer/indexer.go:36-53 | in every state of every run no cached counter exceeds the one folded from the emitted log |
| `Pipeline.BurstFromEmpty` | internal/chain/memchain.go:66-67 | of a burst into an empty pipeline the first 64 events are delivered, in order, and all others are lost |
| `Pipeline.BurstKeepsPrefix` | internal/chain/memchain.go:106-111 | a burst fills the free slots with its first events and loses exactly the rest |
| `Reputation.Summarise` | internal/domain/reputation.go:48-73 | the loop computes seven independent totals and the ratio |
| `Reputation.SummaryPermuted` | internal/domain/reputation.go:46-47 | the order of the events does not matter |
| `Reputation.SummaryOfOwnLog` | internal/domain/reputation.go:51-53 | a user's own log gives the same summary as the whole log |
| `Reputation.OneEvent` | internal/domain/reputation.go:54-68 | the summary of a single event of each kind, which with SummaryConcat and SummaryPermuted fixes the summary of every log |
| `Reputation.SummaryConcat` | internal/domain/reputation.go:48-73 | totals of two logs add up, and the joint ratio lies between the two ratios |
| `Reputation.RatioMeaning` | internal/domain/reputation.go:69-71 | the ratio is in [0, 1], one if and only if nothing was missed, zero if and only if something was missed and nothing made; ratio x (made + missed) = made |
| `Reputation.SummaryOfMember` | internal/domain/reputation.go:42-44 | in a group with complete obligation records, a member's made and missed add up to the number of cycles, amounts are contribution x counts, and the ratio is one exactly if every cycle was paid |
| `Liquidity.Assess` | internal/intelligence/liquidity.go:31-69 | the loop computes shortfall, collapse probability and level |
| `Liquidity.HitExactly` | internal/intelligence/liquidity.go:42-46 | a member's expected shortfall: nothing without risk, the whole contribution when certain, the whole part of contribution x risk between |
| `Liquidity.GroupsCombine` | internal/intelligence/liquidity.go:41-47 | put together, members' shortfalls add up and their chances of survival multiply |
| `Liquidity.OneMemberCollapses` | internal/intelligence/liquidity.go:41-47 | one member collapses a group with exactly their clamped risk |
| `Liquidity.LevelExactly` | internal/intelligence/liquidity.go:58-67 | good exactly when escrow covers the shortfall and collapse < 1/4; critical exactly when collapse >= 1/2 or the gap exceeds a fifth of the pot by a whole unit; stressed otherwise |
| `Liquidity.CollapseBounds` | internal/intelligence/liquidity.go:41-47 | largest clamped risk <= collapse <= min(1, sum of clamped risks); zero and one exactly when nobody or somebody certain defaults |
| `Liquidity.ShortfallBounds` | internal/intelligence/liquidity.go:38-45 | 0 <= shortfall <= expected inflow, with equality exactly when everybody is certain to default |
| `Liquidity.LevelMonotone` | internal/intelligence/liquidity.go:58-67 | raising any member's risk or lowering the escrow never improves the level |
| `Liquidity.LevelFromRisks` | internal/intelligence/liquidity.go:58-67 | a member at even odds makes the level critical, one at a quarter stops it being good; with small risks the level is decided by escrow against shortfall |
| `Encoding.Itoa` | internal/store/memory.go:58-79 | the 20-byte backwards loop prints the decimal spelling of every 64-bit integer but the smallest, for which it prints a minus sign |
| `Encoding.PrintedExactly` | internal/store/memory.go:58-79 | itoa is correct if and only if the integer is not the smallest, and injective on all 64-bit integers |
| `Encoding.DecimalRoundTrip` | internal/domain/contribution.go:28-30 | reading a decimal spelling back gives the integer |
| `Encoding.MemberTextExact` | internal/store/memory.go:51-51 | two membership keys are spelt alike if and only if they are equal or one group id extends the other by a bar and a piece the other's user id begins with |
| `Encoding.MemberTextInjective` | internal/store/memory.go:51-51 | so membership keys are unambiguous for group ids without a bar |
| `Encoding.CycleTextInjective` | internal/store/memory.go:52-54 | cycle keys are unambiguous for all group ids and 64-bit indices |
| `Encoding.ContribTextExact` | internal/store/memory.go:55-57 | contribution keys are spelt alike if and only if the cycles agree and the membership keys are spelt alike |
| `Encoding.GeneratedIdsBind` | internal/domain/types.go:22-29 | with generated ids contribution keys and commitments are unambiguous |
| `Encoding.BarsCollide` | internal/store/memory.go:51-51 | with a bar inside a group id two different members share a key |
| `Encoding.TablesAgree` | internal/store/memory.go:295-345 | over any series of saves a string-keyed table agrees with the table keyed by the values, if the spelling is unambiguous |
| `Encoding.ContributionTableAgrees` | internal/store/memory.go:329-345 | so for contributions |
| `Encoding.CycleTableAgrees` | internal/store/memory.go:295-311 | so for cycles |
| `Encoding.MembershipTableAgrees` | internal/store/memory.go:183-199 | so for memberships |
| `Encoding.HexSpelling` | internal/domain/types.go:22-29 | each byte is spelt by two lower-case hexadecimal digits, the higher one first |
| `Encoding.HexSafe` | internal/domain/types.go:22-29 | generated ids contain neither a bar nor the field separator and are twice as long as their bytes |
| `Encoding.HexInjective` | internal/domain/types.go:22-29 | different bytes give different ids |
| `Encoding.PreimageExact` | internal/domain/types.go:35-44 | for fields without the separator the digested bytes determine the list of fields, except that no field and one empty field are digested alike |
| `Encoding.CommitmentExact` | internal/domain/contribution.go:22-30 | for all ids: two commitment preimages are equal if and only if cycle and amount agree and user and group agree or one user id runs over a separator into the group |
| `Encoding.CommitmentBinds` | internal/domain/contribution.go:22-30 | so for user ids without the separator it binds user, group, cycle and amount |
| `Encoding.SeparatorsCollide` | internal/domain/types.go:31-34 | with the separator inside an id a commitment can be read as another user's |
| `Encoding.ContributionProofExact` | internal/chain/memchain.go:36-37 | a contribution's proof identifies exactly what its commitment does |
| `Encoding.DefaultProofForgetsCycle` | internal/app/settlement.go:108-109 | a default's proof identifies group and user but not the cycle |
| `Encoding.PayoutProofNamesPayee` | internal/chain/memchain.go:87-88 | a payout's proof identifies the payee only; proofs of different kinds never coincide |

## Left out

- HTTP handlers, middleware other than the limiter's bucket, metrics, access log, configuration, start-up and the frontend: plumbing.
- The SQL stores: they sit behind drivers; the in-memory store is the one modelled.
- The EVM client and the identity registry: thin wrappers. The reputation ledger contract is modelled as the append-only list it keeps.
- SHA-256, keccak, password hashing, tokens: only what goes into a digest is modelled.
- The default-risk score: a logistic function of floating-point features; the optimizer and the liquidity predictor take risks as given.
- Notifications, webhooks, audit entries, KYC decisions and role changes: side effects without bearing on the invariants. A user is reduced to being active and approved.
- Idempotency middleware and behavioural flags: look-ups beside the engine.
- Paginated listings beyond the first page, and the read-only views of groups, members, requests and cycle status.
- Failures of the payment rail and retries after them: under the no-failure assumption a cycle's defaults are recorded once.
- Interleavings inside one service call: two calls on one group at the same time are not modelled, except that `MemberSlices` says what a reader with an older header sees.
- The contract's calls are taken in any order the model says they are accepted in; who pays for them, and when the organizer sends the late settlements, is not modelled.
- Fields that no decision depends on: contribution ids, commitments stored in contribution rows, escrow references and memos, event ids, time stamps and proof hashes (the latter are in `Encoding`), the message texts of errors. Approved and accepted, rejected and declined are one status each.
- Which rows come first in map iterations and among groups created at the same moment: results are proved for every order.
- After a subscription is cancelled the indexer may or may not read what is still buffered; runs of `Pipeline` are of a live subscription.
- RateLimit.WindowBoundExactly: is for non-negative rates and a clock that does not run backwards.
- Refinement.SchedulerRefinesContract: considers times below 2^64 seconds and fewer than 2^64 members, beyond which the contract's casts truncate.
- Pipeline.Indexer.CatchUp: ends where the real loop would block; the endless loop itself is the sequence of `Receive` turns.
