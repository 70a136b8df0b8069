# Keepr One: verified models

Dafny models of the parts of Keepr One that carry its protocols, hierarchies and ledgers, with machine-checked
proofs of what they promise. `dafny verify dfyconfig.toml` checks everything.

| files | part of the system |
|---|---|
| `Hierarchy`, `Walk`, `HierarchyOrder`, `ParentGraph`, `Commission` | agent hierarchy walks over possibly cyclic parent columns, and override commissions |
| `Tables`, `Finalization`, `FinalizationStore`, `FinalizationInvariant`, `FinalizationRuns` | the transaction that accepts a paid agency invitation, its invariant, and whole runs of it |
| `FinalizationReasons`, `FinalizationWrites` | why each request is refused or accepted, and what an acceptance leaves in each table, row by row |
| `FinalizationGuards`, `FinalizationReservations`, `FinalizationSettled` | the database triggers beside it, paid reservations against the expiry of the invitation, and what stays settled after an acceptance |
| `FounderAccess`, `FounderAccessRules`, `AgentAccess`, `TrialCountdown`, `FinalizationAccess`, `FinalizationOthers`, `FinalizationCut` | who has commercial access when, the trial countdown, and what an acceptance changes for whom |
| `AgencyAdmission`, `AgencyRoster`, `AgencyTree`, `RosterRules`, `RosterOrder`, `FinalizationRoster` | the agency roster: which agencies and members are shown, the tree they form and its order, and where an accepted agency appears in it |
| `EmailChange`, `EmailChangeRuns`, `EmailChangeRules`, `EmailChangeSafety`, `EmailChangeWitness` | the two-party login email change, in every interleaving, and one complete run of it |
| `PromotionLedger`, `PromotionCredits`, `PromotionRules`, `PromotionJourney`, `PromotionProgress`, `PromotionWindow` | the promotion ledger fold, its validation, ranks, and the rolling window |
| `RateLimit` | the in-memory fixed-window limiter |
| `Wrappers`, `Text` | options, results, ids, instants, ASCII text normalisation |

## How to read it

Code that changes state step by step is a `class` or a `method` with loops (`Store.Finalize`, `Database.Prepare`,
`Limiter.Consume`, `AdmitAgencies`, `GetAgencyTree`, `RollupPromotionCredits`, ...), proved against a specification:
a closed form of the next tables, a predicate over the result, or a set-based definition. The lemmas then prove what
that specification means. A Serializable transaction is one atomic step; a thrown error leaves the tables as they were.
What the specification functions decide is also stated a second time without them, on the rows and columns alone, and
proved to agree: `EmailChangeRules`, `FinalizationReasons`, `FinalizationWrites`, `FounderAccessRules`, `RosterRules`,
`PromotionRules`.

Three results stand on an invariant or an assumption worth knowing:

- The code of finalization checks only the agent graph for cycles but also rewires the agency graph.
  `FinalizationInvariant.Inv` ties the two: the owner of a parent agency is strictly above the owner of the child, an
  owner is at or above every active member of the agency and every inviter with a pending invitation, and each agency
  has one active owner. It is an assumption about the initial tables and is proved to be kept by every later step. The
  database has a trigger against agency cycles and others on memberships, plans and claimed invitations;
  `FinalizationGuards.GuardsAreSilent` proves that no acceptance ever makes one of them raise.
- The email-change step system lets any number of calls stop anywhere, fail, or clean up late, with unconstrained
  clocks. It assumes that tokens and request ids are fresh and that every other write to a user row moves its
  `updatedAt` forward, and for `EmailChangeRules.EmailsStayApart` that such writes keep login emails apart. A login
  between the revocation and the commit is possible in the model, as in the code; what is
  proved is that every session of the user alive at the commit came from such a login.
- In the promotion fold a credit id determines the credit (it is the primary key of the joined row).

Where the code does less than one might expect, the input and the exact condition are proved:

- A reserved checkout lets an invitation past the first expiry check, but the claim at the end still requires
  `expiresAt > now`. A request that passes the other checks is accepted exactly when `now` is before the expiry (and no
  other invitation has the membership), and otherwise writes nothing (`FinalizationReservations.AcceptedIffUnexpired`).
  Only reservations can fail in this way (`ExpiresAtClaimIffReserved`), and
  `PaidInTimeYetRefused` is a run in which an invitation is reserved and paid in time and then refused.
- Access after acceptance looks at the newest 25 plan rows of the subject. The plan row is found exactly when fewer
  than 25 rows of that subject are newer (`FinalizationAccess.AcceptanceGrantsAccess`). A newly inserted row always is,
  given a clock that is ahead of the older rows; a row is inserted exactly when there is no live agency plan to renew.
  `FinalizationCut.CutRefusesAccess` is a renewal that 25 newer rows hide. Its tables are ones the invariant and the
  uniqueness rules admit; no run is shown to reach them, because other writers of plan rows are not modelled.
- The roster hides an agency linked to a shown one exactly when its owner is shown for another agency
  (`AgencyAdmission.HiddenIffOwnerShown`; `HidingHappens` is such a case). With distinct owners it shows exactly the
  linked ones, and owners are distinct in every state a run of finalizations reaches
  (`FinalizationRoster.OwnersAreDistinct`).
- In the agency view a rank below the current one may be inherited rather than earned, because the minimum personal
  production falls towards the top: exactly when the totals reach the red jacket or higher through the agency route
  with less than 30,000 of personal production (`PromotionJourney.InheritanceIff`).
- A policy key joins carrier and number with a separator character. Two credits share a key exactly when they name the
  same policy, provided no carrier contains that character (`PromotionRules.SameKeyIff`); `SeparatorCollides` shows two
  policies that share one otherwise.
- The limiter lets at most `2 * max - 1` requests through in one window's length, and for every limit and window that
  many can happen (`RateLimit.BoundIsReached`).

## Model

| member | source | states |
|---|---|---|
| Hierarchy.GetDownlineIds | lib/hierarchy.ts:3-25 | the queue walk lists the ids of the reference downline, in the same order as the leveled walk |
| Hierarchy.GetDownlineWithLevels | lib/hierarchy.ts:27-54 | the leveled queue walk computes the reference downline |
| Hierarchy.DownlineIsShortestPaths | lib/hierarchy.ts:3-54 | on any rows, cyclic or not: every node reachable by one or more child edges exactly once, at its shortest distance, levels non-decreasing, nothing else |
| Hierarchy.GetUplineIds | lib/hierarchy.ts:93-107 | the upward loop computes the reference upline |
| Hierarchy.UplineIsMaximalChain | lib/hierarchy.ts:93-107 | the upline is a repetition-free chain of parent edges that stops only at a root or before a repeat |
| Hierarchy.UplineDownlineDuality | lib/hierarchy.ts:27-54 | u is the L-th listed ancestor of s exactly when s is listed at level L below u, cycles included |
| HierarchyOrder.BuildHierarchyOrder | lib/hierarchy.ts:61-91 | roots first, then every row, through one recursive visit with a visited set |
| HierarchyOrder.OrderListsEveryAgentOnce | lib/hierarchy.ts:61-91 | the order is a permutation of the agent ids, even with cycles and dangling parents; each row is at depth 0 or under its parent's row, one deeper |
| HierarchyOrder.OrderIsPreorder | lib/hierarchy.ts:61-91 | on an acyclic table with all parents present it is the pre-order of the forest |
| Walk.Walker.Visit | lib/hierarchy.ts:75-83 | the recursive closure appends exactly the reference listing of the unvisited part below a node |
| Commission.ComputeOverrides | lib/commission.ts:23-43 | one override per paid level of the producer's upline, nearest first |
| Commission.OverrideIffDownlineLevel | lib/commission.ts:23-43 | an agent earns a level-L override exactly when the producer is listed at level L below them, their row has a rank and the plan pays it at that level; and then exactly that percentage of the base amount |
| Commission.PaidAtMostOnce | lib/commission.ts:23-43 | nobody is paid twice for one sale, nobody on their own sale |
| FinalizationStore.InviterIsBelow | lib/agency-invitation-finalization.ts:304-311 | the downline test of the cycle guard says exactly whether the inviter is below the invited agent |
| FinalizationStore.Transaction.Attach | lib/agency-invitation-finalization.ts:335-496 | the member, promotion, re-parenting and new-agency branches leave exactly the memberships, agencies and plans of the closed form |
| FinalizationStore.Transaction.ClaimInvitation | lib/agency-invitation-finalization.ts:576-611 | clears the agent's former current invitations and claims this one only if still pending and unexpired and no other invitation has the membership |
| FinalizationStore.Store.Finalize | lib/agency-invitation-finalization.ts:113-684 | the transaction, write by write, ends in exactly the tables and answer of the specification, or changes nothing |
| FinalizationStore.Store.DecideInOrder | lib/agency-invitation-finalization.ts:175-525 | the checks before the claim refuse with the first error in the server's order |
| FinalizationReasons.RefusalHasItsReason | lib/agency-invitation-finalization.ts:113-611 | every error means what it says: each of the refusals is given only when the rows have the reason for it, stated apart from the order of the checks |
| FinalizationReasons.AcceptanceHasNoReason | lib/agency-invitation-finalization.ts:113-611 | and whatever is accepted has none of those reasons against it: price, plan, person, authority, hierarchy, memberships, migration |
| FinalizationWrites.AcceptanceOrReplay | lib/agency-invitation-finalization.ts:149-161 | a request that is not refused is an acceptance, or the replay of a finalized checkout that writes nothing |
| FinalizationWrites.AccountLeft | lib/agency-invitation-finalization.ts:217-287 | an account is opened exactly when nobody has the invited address, for the invited agent, who starts onboarding; otherwise the account is the one addressed |
| FinalizationWrites.AgentLeft | lib/agency-invitation-finalization.ts:351-496 | the invited agent hangs below the inviter, an owner with the agency view under the agency plan, a personal view under the member plan; no other agent changes |
| FinalizationWrites.FounderFollows | lib/agency-invitation-finalization.ts:569-574 | a founder who accepts the agency plan becomes an agency account of an agency they own, with the same trial; without that plan no enrollment changes |
| FinalizationWrites.FoundersTakeAgencyPlan | lib/agency-invitation-finalization.ts:320-324 | a founder accepts no other plan |
| FinalizationWrites.MembershipAdded | lib/agency-invitation-finalization.ts:335-480 | the one membership added: an owner's in the new agency or a member's in the inviting one, none for an agency that is re-parented |
| FinalizationWrites.MembershipLeft | lib/agency-invitation-finalization.ts:414-425 | a promoted member's old membership ends now; every other one is as it was |
| FinalizationWrites.AgenciesLeft | lib/agency-invitation-finalization.ts:427-480 | under the agency plan the agent's agency, new and named as given or their own with its name, hangs below the inviting one; no other agency changes |
| FinalizationWrites.PlanLeft | lib/agency-invitation-finalization.ts:527-554 | the plan row carries what the provider confirmed, for the accepted agency or membership |
| FinalizationWrites.OtherPlanLeft | lib/agency-invitation-finalization.ts:402-507 | the agent's live individual plans and the promoted membership's plan are canceled, every other plan row is as it was |
| FinalizationWrites.InvitationLeft | lib/agency-invitation-finalization.ts:576-611 | the invitation records who accepted, when, as what, at which price, and whether the agent is onboarding |
| FinalizationWrites.OtherInvitationsLeft | lib/agency-invitation-finalization.ts:582-627 | the agent's former invitations stop being current, the one behind a promoted membership is paused, no other changes |
| FinalizationWrites.CheckoutLeft | lib/agency-invitation-finalization.ts:629-649 | the checkout is finalized with that plan row; no other checkout and no provisioning changes |
| FinalizationWrites.CheckoutIsTheirs | lib/agency-invitation-finalization.ts:629-649 | and names the account of the invited agent |
| FinalizationInvariant.DecisionFacts | lib/agency-invitation-finalization.ts:175-525 | whatever passes the checks: pending invitation, subject a root or already under the inviter, inviter not below the subject, and the branch's own row facts |
| FinalizationInvariant.GraphAfter | lib/agency-invitation-finalization.ts:298-311 | agent edges are only added and the agent graph stays acyclic |
| FinalizationInvariant.AgencyGraphAcyclic | lib/agency-invitation-finalization.ts:430-473 | the owner invariant makes the agency graph acyclic although the transaction's code does not check it |
| FinalizationInvariant.FinalizationKeepsInv | lib/agency-invitation-finalization.ts:113-684 | every request, accepted or refused, keeps the whole invariant and the agency graph acyclic |
| FinalizationGuards.GuardsAreSilent | prisma/migrations/20260826102000_add_commercial_agency_hierarchy/migration.sql:95-211 | an acceptance never trips a database trigger: a parent is written once and never closes a cycle, the claimed row names an active membership that fits its plan, a membership is ended only without a live plan, and the plan's subject is active with no live individual plan |
| FinalizationRuns.AcceptanceLeavesOneOfEach | lib/agency-invitation-finalization.ts:335-611 | an acceptance leaves the agent under the inviter with one active membership, one current commercial invitation, no live individual plan and exactly one live plan on the accepted subject |
| FinalizationSettled.AcceptedStaysSettled | lib/agency-invitation-finalization.ts:335-611 | in every later state of a run the accepted agent still has exactly one active membership and exactly one current invitation, accepted with that membership, and stays under the same inviter |
| FinalizationRuns.RunsStayAcyclic | lib/agency-invitation-finalization.ts:113-684 | along every run of finalizations, invitations, closings, reservations and billing events both hierarchies stay acyclic |
| FinalizationRuns.AcceptanceIsFinal | lib/agency-invitation-finalization.ts:588-611 | an invitation is accepted at most once: what its acceptance recorded never changes later in the run |
| FinalizationRuns.FinalizedIsFinal | lib/agency-invitation-finalization.ts:629-649 | a finalized checkout row never changes again |
| FinalizationRuns.AcceptanceIsRecorded | lib/agency-invitation-finalization.ts:629-649 | accepting through a checkout records invitation, provider subscription and result in its row |
| FinalizationRuns.ReplayIsHarmless | lib/agency-invitation-finalization.ts:149-161 | delivering the same confirmation again, any number of steps later, returns the same subscription id and writes nothing, whatever entitling status and period the provider reports by then |
| FinalizationReservations.ReservedChecksIgnoreTheClock | lib/agency-invitation-finalization.ts:175-186 | with a checkout no check before the claim depends on the time of the confirmation |
| FinalizationReservations.AcceptedIffUnexpired | lib/agency-invitation-finalization.ts:588-611 | a request that passes the checks is accepted exactly when the invitation is unexpired at that moment and no other invitation has the membership; otherwise nothing is written |
| FinalizationReservations.ExpiresAtClaimIffReserved | lib/agency-invitation-finalization.ts:175-611 | of the requests that pass the checks, exactly the reservations confirmed at or after the expiry are refused as already used |
| FinalizationReservations.SameConfirmationEarlyAndLate | lib/agency-invitation-finalization.ts:175-611 | the same confirmation of a reservation is accepted before the expiry and refused from then on |
| FinalizationReservations.NeverAcceptedLate | lib/agency-invitation-finalization.ts:588-611 | no state of a run accepts an invitation at or after the expiry it was created with, whatever was reserved or paid meanwhile; only a replay is answered |
| FinalizationReservations.PaidInTimeYetRefused | lib/agency-invitation-finalization.ts:175-611 | a run from good tables: invited, reserved before the expiry, confirmed after it, refused with nothing written |
| FounderAccess.InTake25 | lib/founder-access.ts:303-308 | a row makes the newest-25 cut exactly when fewer than 25 rows of its subject were created later, or at the same time with a larger id |
| FounderAccess.LatestDecides | lib/founder-access.ts:419-540 | whoever has a current accepted invitation has a latest one (a missing acceptance time sorts first), and it alone decides, before provisioning and founder enrollment |
| FounderAccess.AccessIsBacked | lib/founder-access.ts:419-540 | except for grandfathered accounts, access at an instant is backed by a plan row current at that instant, ACTIVE for PAID and TRIALING for TRIAL |
| FounderAccess.ProvisioningIsBacked | lib/founder-access.ts:388-410 | provisioned access needs the agent's own current plan; an administrative hold blocks a trial but not a paid plan |
| FounderAccess.FounderIsBacked | lib/founder-access.ts:508-540 | a founder's access comes from their own plan rows, and a trial only inside the exact trial period |
| FounderAccessRules.FounderDecidedBy | lib/founder-access.ts:508-540 | a founder is PAID exactly while one of the newest 25 rows of their own plan is ACTIVE and current, after the free month too, on TRIAL exactly while one is TRIALING inside that month and none is ACTIVE, and the newest such row is shown; a contradictory enrollment gives nothing |
| FounderAccessRules.InvitationDecidedBy | lib/founder-access.ts:295-327 | the same in both directions for an accepted invitation, over the plan rows of the active membership or child agency it made |
| FounderAccessRules.ProvisioningDecidedBy | lib/founder-access.ts:388-410 | the same in both directions for provisioning, over the agent's own plan |
| FounderAccessRules.EvidenceInOrder | lib/founder-access.ts:419-540 | the latest accepted current invitation decides; without one provisioning, then the founder enrollment; whoever has none keeps a grandfathered account |
| FounderAccessRules.FoundIsNewest | lib/founder-access.ts:303-320 | of several current rows of one status the one created last is reported |
| AgentAccess.SelectedEntitlesIff | lib/agent-access.ts:171-182 | the selected plan entitles exactly when some row of the subject does, so a newer canceled row hides nothing |
| AgentAccess.CapabilitiesNeedAPlan | lib/agent-access.ts:111-350 | fail closed: no capability without a current plan for the exact role, team capabilities only for entitled owners, otherwise nobody else's data |
| AgentAccess.CapabilitiesIff | lib/agent-access.ts:191-350 | an active agent with a membership may invite exactly while its plan pays, and manages the team exactly if it is an owner's; the boundary then holds every paid member of the agency, themselves and nobody else |
| AgentAccess.SelectedIs | lib/agent-access.ts:171-182 | the plan shown is the newest that pays, and if none does the newest of all |
| AgentAccess.WithoutMembership | lib/agent-access.ts:191-250 | without an active membership, or inactive, an agent is on their own |
| FinalizationAccess.AcceptanceGrantsAccess | lib/founder-access.ts:295-327 | after an acceptance the resolver answers PAID or TRIAL from the invitation at every instant of the period, exactly when the plan row is among the newest 25 |
| FinalizationAccess.InsertsIffNoLivePlan | lib/agency-invitation-finalization.ts:500-554 | a plan row is inserted exactly for a member plan or an agency without a live plan, re-parented ones included |
| FinalizationAccess.NewPlanIsAlwaysFound | lib/agency-invitation-finalization.ts:540-554 | in every branch a newly inserted plan row gives access during its period, however many older rows its subject has |
| FinalizationCut.CutRefusesAccess | lib/founder-access.ts:295-327 | tables on which an accepted, paid renewal gives no access because 25 canceled rows are newer |
| FinalizationCut.CrowdedIsGood | lib/agency-invitation-finalization.ts:113-684 | those tables satisfy the invariant and every uniqueness rule |
| FinalizationAccess.AcceptanceEntitles | lib/agent-access.ts:251-350 | agent-access then reports an entitled member or owner of the accepted agency |
| FinalizationOthers.OthersUntouched | lib/agency-invitation-finalization.ts:335-611 | nothing the two resolvers read about any other agent is touched by an acceptance |
| FinalizationOthers.OthersKeepAccess | lib/founder-access.ts:419-540 | no other agent's access state or source changes, at any instant |
| FinalizationOthers.OthersKeepCapabilities | lib/agent-access.ts:191-350 | no other agent's capabilities change, and their data boundary only by the invited agent coming or going |
| FinalizationOthers.BoundaryIsBelow | lib/agent-access.ts:301-350 | everybody inside an agent's data boundary is at or below that agent in the hierarchy |
| TrialCountdown.CountdownKeepsItsPromise | lib/trial-countdown.ts:27-73 | while the rows stay as they are, access is never lost before the displayed end, for all three trial sources |
| TrialCountdown.CountdownEndsWithTheTrial | lib/trial-countdown.ts:47-62 | the displayed end is the end of the plan row behind the trial, or for a founder the earlier of that and the end of the free month |
| TrialCountdown.EveryTrialIsCounted | lib/trial-countdown.ts:38-62 | a countdown is shown exactly to those who resolve to a trial |
| TrialCountdown.SecondsOvershootByLessThanOne | lib/trial-countdown.ts:61-72 | the displayed seconds reach the end and pass it by less than one second |
| AgencyAdmission.AdmitAgencies | lib/agency-tree.ts:196-310 | the generation loop terminates on cyclic data; it shows distinct agencies and owners, each linked to an earlier one and one deeper, in generation and row order, and leaves out a linked row only if its owner was shown before it |
| AgencyAdmission.AdmissionIsUnique | lib/agency-tree.ts:196-310 | those promises leave nothing open: the rows determine which agencies are shown and in which order |
| AgencyAdmission.ShownIffLinked | lib/agency-tree.ts:205-310 | with distinct owners: exactly the agencies whose chain of accepted exact-parent AGENCY invitations reaches the root, at the length of the chain |
| AgencyAdmission.HiddenIffOwnerShown | lib/agency-tree.ts:262-285 | an agency linked to a shown one is hidden exactly when its owner is shown for another agency, which then comes before it |
| AgencyAdmission.HidingHappens | lib/agency-tree.ts:262-285 | two agencies of one owner: the later row is hidden |
| RosterRules.ShownThroughInvitation | lib/agency-tree.ts:260-308 | every shown sub-agency joined one shown before it: its active owner accepted the AGENCY invitation of exactly that parent; it is shown with its own name, owner, plan and stage, an active plan or trial outside its period as expired |
| RosterRules.InvitedIsShown | lib/agency-tree.ts:260-308 | whichever agency joined a shown one is shown, unless its owner is shown for another |
| FinalizationRoster.OwnersAreDistinct | lib/agency-tree.ts:205-240 | rows fetched from tables that satisfy the invariant of finalization have distinct owners |
| FinalizationRoster.AcceptedAgencyIsShown | lib/agency-tree.ts:205-551 | once an AGENCY invitation is accepted, every roster of every later state that shows the inviting agency, its owner's own in particular, shows the accepted agency one generation below, and its rows list the invited agent in the block under the inviting agency's owner |
| AgencyRoster.KeepValidMembers | lib/agency-tree.ts:379-405 | the claiming loop keeps the specified rows |
| AgencyRoster.FirstRowWins | lib/agency-tree.ts:376-405 | the kept rows are exactly the first eligible row of each agent who owns nothing shown |
| RosterRules.ListedIff | lib/agency-tree.ts:376-405 | a member row is kept exactly if it is the first of its agent that belongs to a shown agency, with no invitation or the accepted AGENT invitation of that agent by that agency, and the agent owns nothing shown |
| AgencyRoster.MemberChainReachesOwner | lib/agency-tree.ts:433-454 | the walk with its seen set answers whether climbing ends at the agency's owner, on cyclic data too |
| AgencyRoster.NormalizedReachesOwner | lib/agency-tree.ts:456-467 | after normalization climbing from any member ends at the owner of the member's agency |
| AgencyRoster.GoodParentIsKept | lib/agency-tree.ts:415-467 | a recorded parent in the same agency that leads to the owner is respected |
| RosterRules.MemberHangsUnder | lib/agency-tree.ts:415-467 | a member hangs below the recorded parent, or without one the inviter, exactly if that is a colleague from whom asking on leads to the owner; otherwise below the owner |
| AgencyTree.SortNodesSorts | lib/agency-tree.ts:113-117 | siblings end up ordered by join time, then membership id |
| AgencyTree.GetAgencyTree | lib/agency-tree.ts:130-551 | an owner without a current plan sees nothing; otherwise every admitted owner and valid member exactly once, each non-root row under its parent's earlier row with depth one less, each subtree one block, in sorted pre-order |
| AgencyTree.EverybodyClimbsToRoot | lib/agency-tree.ts:415-521 | whatever the parent columns say, everybody shown climbs to the requesting owner |
| AgencyTree.OwnerIsListedUnder | lib/agency-tree.ts:469-551 | in the result a sub-agency's owner is listed in the block under the owner of the parent agency, deeper, however many members stand between them |
| AgencyTree.ParentsStayInTheirAgency | lib/agency-tree.ts:456-521 | a member's parent is in the same agency, a sub-agency owner's parent in the immediate parent agency |
| RosterRules.SubAgencyHangsUnder | lib/agency-tree.ts:481-487 | a sub-agency's owner hangs below the recorded parent, or without one the inviter, if that is somebody of the immediate parent agency; otherwise below its owner |
| RosterRules.MemberIsShown | lib/agency-tree.ts:494-521 | a member has a row with their own name, agency, plan and stage, under their normalized parent |
| RosterRules.AgencyIsShown | lib/agency-tree.ts:469-492 | a sub-agency has its owner's row, with the agency's plan and stage |
| RosterRules.RootIsShown | lib/agency-tree.ts:523-551 | the first row is the requesting owner's, under nobody |
| RosterOrder.SiblingsByJoinTime | lib/agency-tree.ts:113-117 | in the result people under one parent come in the order in which they joined, by membership id at the same time, however many rows stand between them |
| EmailChange.Database.Prepare | app/confirm-email-change/actions.ts:86-198 | the first transaction, with its guarded update and delete, does exactly what the specification says; its update count is always one |
| EmailChange.Database.UndoApproval | app/confirm-email-change/actions.ts:215-228 | the compensating update acts exactly at the claimed version and token: the approval is gone, the version higher, tokens and expiry of the first step and every other row unchanged |
| EmailChange.Database.Complete | app/confirm-email-change/actions.ts:312-388 | the second transaction commits all of its writes or none, with the first failing check as its error |
| EmailChangeRules.EmailsStayApart | app/confirm-email-change/actions.ts:333-364 | in every interleaving no two accounts come to share a login email up to case, if other writers of user rows keep them apart |
| EmailChangeRules.LinkWorksIff | app/confirm-email-change/actions.ts:86-198 | the current link issues a second token exactly when both accounts are in order, nobody else has the address, in time and for the first time; the new link is ready exactly when all that holds, approved and in time; nothing else is written, but a late current link removes its request |
| EmailChangeRules.RefusalHasItsReason | app/confirm-email-change/actions.ts:112-198 | each refusal of a link says something true, and a link that is not refused has nothing against it |
| EmailChangeRules.ApprovalOpensAnHour | app/confirm-email-change/actions.ts:159-188 | an approval opens one hour for the new token and changes this request only |
| EmailChangeRules.CompletesIff | app/confirm-email-change/actions.ts:312-388 | the commit goes through exactly when the row, its token, both accounts and the address are as they have to be, and changes one user; each failure has its reason |
| EmailChangeRules.AskedIff | app/admin/users/email-change-actions.ts:88-134 | a change can be asked for exactly for an active user as seen, to a new address nobody has and no usable request of another user names |
| EmailChangeRules.AskedLeaves | app/admin/users/email-change-actions.ts:88-153 | a request locks the profile under a later version, is open for one hour, and replaces the user's other requests and all lapsed ones |
| EmailChangeRules.HolderIsFound | app/confirm-email-change/actions.ts:87-93 | in every state of a run a link leads to the one request that has its token |
| EmailChangeRuns.StepKeepsInv | app/confirm-email-change/actions.ts:86-388 | every step of every actor keeps the invariant tying calls in progress to request rows, versions and tokens |
| EmailChangeRuns.VersionDeterminesRow | app/confirm-email-change/actions.ts:159-168 | versions never go back and equal versions mean equal rows: there is no ABA |
| EmailChangeRuns.RowsAreAllOrNone | app/confirm-email-change/actions.ts:159-168 | approval date, second token and its expiry are always set or cleared together |
| EmailChangeRuns.SecondTokenWasApproved | app/confirm-email-change/actions.ts:145-188 | a row carrying a second token was written by an earlier approval with the current token, presented in time |
| EmailChangeRuns.EveryRequestWasAsked | app/admin/users/email-change-actions.ts:69-177 | every request row goes back to a request that locked the user row, by a call whose role check had passed for an active administrator other than the user |
| EmailChangeSafety.EmailChangesOnlyAuthorized | app/confirm-email-change/actions.ts:86-388 | in every interleaving an email changes (other than by a foreign write) only through an administrator's request, approval with the current token, confirmation with the token that approval made, and full revocation, in this order |
| EmailChangeWitness.AnEmailChanges | app/confirm-email-change/actions.ts:86-388 | a run from the role check to the commit in which an email is changed with both parties' consent |
| EmailChangeSafety.CompletionIsCurrent | app/confirm-email-change/actions.ts:312-364 | at the commit the request row is the one found ready, its second token is unexpired, the requester is an unbanned administrator, the user is neither, and nobody else has the new address |
| EmailChangeRuns.SurvivorLoggedIn | app/confirm-email-change/actions.ts:290-306 | a session of the user alive at any later state came from a login after the revocation |
| EmailChangeSafety.OnlyNewSessionsAtCommit | app/confirm-email-change/actions.ts:290-388 | so at the commit no session from before this call's revocation is left |
| EmailChangeSafety.UserUnchangedSinceAsked | app/confirm-email-change/actions.ts:350-364 | the user row was the same at every step between the request and the commit |
| EmailChangeSafety.CompletionChangesOneUser | app/confirm-email-change/actions.ts:350-387 | the commit sets that user's email, verification and a later `updatedAt`, touches nobody else, and consumes the request |
| EmailChangeSafety.DeliveryKeysDiffer | app/confirm-email-change/actions.ts:212-212 | no two deliveries share an idempotency key |
| EmailChangeSafety.OneCompletionPerProfileVersion | app/confirm-email-change/actions.ts:308-311 | completions of one user carry strictly increasing profile versions, so at most one per version |
| EmailChangeSafety.OneCompletionPerRequest | app/confirm-email-change/actions.ts:384-387 | a request completes at most once |
| EmailChangeSafety.CleanUpUndoesOnlyItsOwn | app/confirm-email-change/actions.ts:214-228 | however late, a cleanup withdraws exactly its own call's untouched approval, or does nothing |
| EmailChangeSafety.CurrentLinkWorksAgain | app/confirm-email-change/actions.ts:214-256 | after a cleaned-up failure only version and expiry have moved, and the same link issues a new second token |
| EmailChangeSafety.UndisturbedCallCompletes | app/confirm-email-change/actions.ts:290-388 | a call whose database did not change goes through while its token is good; the exact email comparison never refuses what the normalized one let pass |
| PromotionLedger.RollupPromotionCredits | lib/agent-promotion.ts:250-400 | the loops compute the set-based definition of totals, counts and last credit date |
| PromotionLedger.RollupIsUnique | lib/agent-promotion.ts:250-400 | that definition leaves no figure open |
| PromotionLedger.OrderAndRepetitionDoNotMatter | lib/agent-promotion.ts:250-400 | permuting or repeating the fetched rows changes nothing |
| PromotionLedger.OneUncertainPerPolicy | lib/agent-promotion.ts:299-358 | at most one uncertain credit per policy and bucket counts, none once the policy has a recognized credit |
| PromotionLedger.NewestObservationCounts | lib/agent-promotion.ts:311-331 | an observed but unrecognized policy keeps one counted observation |
| PromotionLedger.CountedIsNewest | lib/agent-promotion.ts:324-331 | and that one was made last, the larger id at a tie |
| PromotionRules.SameKeyIff | lib/agent-promotion.ts:290-297 | two credits have one policy key exactly when carriers agree up to case and numbers up to case and white space, provided no carrier contains the separator |
| PromotionRules.SeparatorCollides | lib/agent-promotion.ts:290-297 | two policies that share a key because a carrier contains it |
| PromotionRules.EligibleIff | lib/agent-promotion.ts:275-288 | the rows looked at: the agent's own PERSONAL rows and, with the agency view, AGENCY rows naming the agent as leader for the given producers, never the agent's own production |
| PromotionRules.SideIs | lib/agent-promotion.ts:333-358 | the credits behind each personal and team figure: certain ones, those of no known policy, and the last observation of each kind of a policy about which nothing is certain |
| PromotionRules.FiguresAre | lib/agent-promotion.ts:361-399 | the totals are those sums, never below zero, the agency ones over the union of both sides; the counts are those of distinct credits |
| PromotionRules.LastCreditIs | lib/agent-promotion.ts:381-399 | the date is the latest of the counted credits |
| PromotionLedger.CountsPartition | lib/agent-promotion.ts:366-399 | confirmed, estimated and pending counts add up to the counted credits |
| PromotionLedger.AgencyTotalIsSum | lib/agent-promotion.ts:361-390 | with frozen attributions each event is counted once: the agency total is personal plus team |
| PromotionLedger.PushdownIsExact | lib/agent-promotion.ts:221-240 | folding only the rows the query fetches equals folding the whole ledger |
| PromotionLedger.NoEntitlementNoAgency | lib/agent-promotion.ts:216-240 | without the entitlement no AGENCY row influences any figure |
| PromotionCredits.ValidateFrozenPromotionAttributions | lib/promotion-credits.ts:198-269 | the loop returns the normalized rows or the first error |
| PromotionCredits.FreezeIffAcceptable | lib/promotion-credits.ts:191-269 | freezing succeeds exactly on one PERSONAL row, AGENCY rows of different leaders, nobody their own upline, all naming one producer |
| PromotionRules.FreezeHasItsReason | lib/promotion-credits.ts:198-269 | each refusal of attributions names what is wrong with them |
| PromotionRules.EventIsValidIff | lib/promotion-credits.ts:135-178 | first credits are never negative, an adjustment moves something, a reversal takes away, and both name the credit they supersede |
| PromotionCredits.FrozenRowsNameTheProducer | lib/promotion-credits.ts:191-269 | rows written from frozen attributions meet the condition of the agency total |
| PromotionJourney.MoreNeverHurts | lib/promotion-journey.ts:170-246 | the rank index is monotone in both totals and the agency view never ranks below the individual one |
| PromotionJourney.IndividualRankIs | lib/promotion-journey.ts:21-110 | the current rank in personal production alone |
| PromotionJourney.AgencyRankIs | lib/promotion-journey.ts:21-110 | the current rank in the two totals, by either route |
| PromotionJourney.StagesFollowTheRank | lib/promotion-journey.ts:228-272 | stages up to the current rank are achieved, the next is in work, the rest locked |
| PromotionJourney.JourneyNamesTheRanks | lib/promotion-journey.ts:228-272 | the rank held, the next one until there is none, and how far the highest is |
| PromotionJourney.ProgressIs | lib/promotion-journey.ts:165-226 | progress is the larger share of the two routes, the agency route's the smaller of its two shares; what is missing is missing to the target |
| PromotionJourney.ProgressIsOneIffQualified | lib/promotion-journey.ts:165-226 | a stage shows full progress exactly when it qualifies |
| PromotionJourney.NothingRemainsIffReached | lib/promotion-journey.ts:170-226 | a remaining amount is zero exactly when its route is reached |
| PromotionJourney.NothingInheritedIndividually | lib/promotion-journey.ts:253-272 | individually, a rank is achieved exactly when it was earned as such |
| PromotionJourney.StageIsInheritedIff | lib/promotion-journey.ts:253-272 | in the agency view a stage is inherited exactly when it lies below the current rank and its minimum of personal production is not met |
| PromotionJourney.InheritanceIff | lib/promotion-journey.ts:170-272 | in the two totals alone: exactly when some stage is inherited |
| PromotionJourney.InheritanceHappens | lib/promotion-journey.ts:260-272 | one such pair of totals |
| PromotionJourney.DurableTitleIsTheHigher | lib/agent-promotion.ts:197-214 | the durable title is the higher of the current rank and the highest ever earned |
| PromotionJourney.TitleWithoutHistory | lib/agent-promotion.ts:197-214 | without a known highest rank the title is the current one |
| PromotionProgress.OnlyCorrectionsLowerTheRank | lib/promotion-credits.ts:135-178 | appending a validated event with a fresh id never lowers the rank, unless it is an adjustment or reversal with a negative amount |
| PromotionWindow.SubtractUtcMonths | lib/agent-promotion.ts:152-162 | going through the first of the month reaches the month that many months earlier, with the day kept or clamped to the last of it |
| PromotionWindow.DaysAreCounted | lib/agent-promotion.ts:164-182 | the day numbers of the window count days one by one, over months, years and leap days |
| PromotionWindow.FourCenturies | lib/agent-promotion.ts:164-182 | and repeat after four centuries of 97 leap days |
| PromotionWindow.DayNumberIsMonotone | lib/agent-promotion.ts:164-182 | they follow calendar order, in both directions |
| PromotionWindow.SubtractIsMonotone | lib/agent-promotion.ts:152-162 | clamped month subtraction keeps the calendar order |
| PromotionWindow.WindowIsAYear | lib/agent-promotion.ts:164-182 | the window opens 365 or 366 days before its last day |
| PromotionWindow.WholeDaysCount | lib/agent-promotion.ts:164-182 | both boundary days count in full: only the UTC day of a credit matters |
| PromotionWindow.ExpiredStaysExpired | lib/agent-promotion.ts:164-182 | a credit that left the window never re-enters it |
| RateLimit.Limiter.Consume | lib/founder-rate-limit.ts:22-49 | one call updates its own bucket only, is refused exactly above the limit, and answers as the limiter's whole history says |
| RateLimit.KeysDoNotInterfere | lib/founder-rate-limit.ts:31-42 | a key's bucket and verdicts depend on that key's calls only |
| RateLimit.AtMostMaxPerBucket | lib/founder-rate-limit.ts:31-49 | one bucket lets at most the limit through, whatever is called later |
| RateLimit.LessThanTwiceMax | lib/founder-rate-limit.ts:31-49 | with a clock that never goes back at most `2 * max - 1` calls pass in any half-open interval of one window's length |
| RateLimit.BoundIsReached | lib/founder-rate-limit.ts:31-49 | for every limit and window a run reaches that bound |
| RateLimit.WaitingIsEnough | lib/founder-rate-limit.ts:41-46 | waiting as told, which is at least a second, with nobody else on the key, guarantees the next call |
| RateLimit.WaitingLessIsNotEnough | lib/founder-rate-limit.ts:41-46 | and coming back a second early, or earlier, is refused again |

## Left out

- Text: trimming and case folding cover ASCII only; ids are integers whose order stands for the id collation.
- Queries without an order: the least matching id stands for "some row"; agent-access orders plan rows by creation time only, the model breaks ties by id.
- Invalid dates, non-numeric decimals and negative zero; PC values are exact reals, so floating-point rounding is not modelled.
- Finalization: Stripe customer, product and price fields, `cancelAtPeriodEnd`, `canceledAt`, currency, person names, password storage, audit payloads and error wording.
- Finalization: the refusals by the unique keys on Stripe ids, checkout rows, founder enrollments of an agency and pending emails; the unique key on accepted memberships is modelled.
- Finalization runs: other writers of parent edges (re-parenting in app/admin/agents/actions.ts, imports) and memberships ended elsewhere; invitation creation and checkout reservation appear as the actions `Invite` and `Reserve` with the guarantees they give.
- FinalizationGuards: advisory locks, and the triggers on writes that finalization does not make (deleting rows, starting individual plans).
- FounderAccess: cohort, names and payment reasons of the resolution; the state EXPIRED is called `Lapsed`, and request-level caching is not modelled.
- AgentAccess: enabled modules and names; the data boundary is a set, its display order is not modelled.
- AgencyTree.GetAgencyTree: rows are looked up by agent id after the walk, since each id has one node; the database's filtering and ordering of the fetched rows are inputs.
- EmailChange: deleting users, message texts, page revalidation and the same-origin check; hashing is modelled by fresh hash values, a failed revocation may have removed any part of the sessions.
- EmailChange: the role check reads the session's copy of the user row; the model takes it as current.
- EmailChange: sending the first email and cleaning up after its failure appear as the action `Withdraw`, which may delete any request at any time.
- PromotionWindow: years 0 to 99, which `Date.UTC` maps to 1900 to 1999.
- Promotion: the snapshot's loading and error paths, the stored achievement query, and `calculateLifeTargetPc`, which would only add a straight-line formula.
- RateLimit: the Redis path; eviction does not exist in the source.
- User interface, routing, storage, dashboards, pipeline and policy aggregations: they would only add simple members.
