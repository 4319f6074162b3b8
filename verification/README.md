# Verification model of RapidRadar's state machines, traversals and scanners

RapidRadar watches an AWS organization: it retires idle EC2 instances, deploys itself
to every account with StackSets, configures instances for SSM and notifies owners.
This project models the parts of it that carry state, and proves what they promise over
all inputs, all AWS answers, all runs and all interleavings.

AWS is an explicit environment. Objects that the program changes step by step are
classes whose methods run the program's own loops; each method is tied by its `ensures`
to a function of the old state, and the lemmas are about those functions. Answers of AWS,
clock readings and failures are arbitrary functions in an `Env` or `Service` value, so a
statement for every `Env` is one for every behaviour. A run is a sequence of states whose
neighbours are related by a step.

| file | component |
|---|---|
| `Clock.dfy` | times written as text with minute precision and read back |
| `Ladder.dfy`, `LadderGroups.dfy`, `LadderAgenda.dfy` | the detector's retirement ladder and the other writer of its table: the handlers, one invocation record by record, and its effects and exceptions one by one |
| `LadderLog.dfy`, `LadderPlan.dfy`, `LadderSafety.dfy`, `LadderProgress.dfy` | the ladder concurrently: what the log says about a record, an invocation as a plan of effects, safety of all interleavings, and runs that show what is reachable |
| `Notifier.dfy` | the guards of the e-mail and chat senders, against the ladder |
| `StackSets.dfy`, `StackSetRuns.dfy` | the StackSet reconciler and its convergence |
| `Organization.dfy`, `OrgTraversalGo.dfy`, `OrgTraversalPython.dfy` | both traversals of the tree of organizational units |
| `FanOut.dfy` | the goroutine fan-out with WaitGroup and error channel |
| `PolicyVersions.dfy`, `VpcEndpoints.dfy`, `TaskMarker.dfy` | the SSM automation |
| `BucketEmptier.dfy` | emptying a versioned bucket while paginating |
| `LockPolicy.dfy`, `EventBusPolicy.dfy` | the two line scanners |
| `Sanitize.dfy`, `SlackIds.dfy` | escaping and packed ids |
| `Common.dfy`, `Text.dfy` | shared datatypes and string operations |

## What the code does not promise

Some natural expectations are false of the code. Each is kept as the code has it, with the
exact condition under which it holds.

- The time written for a notification is read once per group, before the hour tests of its
  members. Two written times can therefore be closer than the threshold by the time that
  passed in between; the one-minute bound holds for them if and only if that lag is zero
  (`WrittenGapNeedsNoLag`, with a run in `WrittenGapCanBeShort`). `TerminationIsEarned`
  measures from the written time to the moment of the test, where the bound always holds.
- Both Lambdas read a record and write it back later. If it is removed or reset in between, the
  write brings the old step back, and the instance can be terminated on notifications from
  before the break (`StaleWriteCanInterrupt`); a reset during an invocation does not stop the
  termination planned at its scan (`ResetCanComeDuringInvocation`). The three spaced
  notifications are there in every run; that nothing broke the record in between holds if and
  only if no write behind them was read before such a break and none comes after the last scan
  (`UninterruptedIff`, `NeverBrokenIff`). A lookup that gives up after five refusals resets a
  known record to step 0 (`LookUpMissesIff`); the runs of the safety theorem include this.
- A group's message depends on its last member only. An instance can climb without
  its owner being written to (`ClimbWithoutMessage`, with a run in `ClimbCanGoUnannounced`);
  a group whose last member climbs is announced by every invocation that ends without an
  exception (`EveryGroupIsAnnounced`).
- A StackSet round works with three sets of accounts: the planner's list, the accounts the OUs
  expand to when it creates, and the accounts in the OUs its deletes reach. `RoundConvergesIff`
  and `RoundCoversTargetsIff` are the exact conditions for ending with the list, and with the
  OUs' accounts. An active account that the list misses is deployed to if it is new
  (`UnlistedAccountIsCreated`) and loses its instances if it is not (`UnlistedAccountIsRemoved`);
  `RedeployKeepsTargetsIff` ties this to failed describe calls. The planner compares
  projections, so off a rectangle it misses holes (`DiagonalIsNotRepaired`), and an account
  that left the OUs keeps its instances (`LeftoverHidesRegion`).
- A second deploy is quiet unless exactly one of the wanted accounts and regions is empty, or a
  status is bad (`SecondRoundIsQuiet`).
- The Go describe loop counts a failed call as a retry but goes on to the next account, so up to
  five accounts can be dropped from a successful result (`ActiveCompleteIff`). The Python
  one drops every account whose describe fails (`ActiveReportedIff`).
- The role stage is not run for an instance that waited for its endpoints and has lost its VPC,
  although nothing is left to wait for (`NoVpcWhileWaitingSkipsRole`, `RoleRunsExactly`).
- Policy rotation raises when the limit is reached and the newest version is not the default
  (`GetCustomPolicyArn`); the program alone never brings that about (`HistoryNeverRaises`).

## Model

| member | source | states |
|---|---|---|
| Clock.ClockTextRead | core/cf/deployment/lambdas/unused_resources_detector/utils.py:215-226 | the 12-hour clock text of every minute of a day is read back as that minute |
| Clock.WrittenClock | core/cf/deployment/lambdas/unused_resources_detector/utils.py:215-226 | the text written is the wall clock six hours west of UTC: day, twelve-hour clock with AM or PM, minute, CST |
| Clock.StampRoundTrip | core/cf/deployment/lambdas/unused_resources_detector/utils.py:215-233 | a time written as text and parsed again loses exactly its seconds and moves by the difference of the two zones, for every instant and every reader zone |
| Clock.ThresholdMeaning | core/cf/deployment/lambdas/unused_resources_detector/main.py:100-104 | `hour_diff >= k` holds exactly when the notified minute lies at least k hours back, shifted by the reader's zone error |
| Ladder.IsInstanceOlderThan5Days | core/cf/deployment/lambdas/unused_resources_detector/utils.py:86-116 | "old" is answered exactly for a stopped instance, not tagged for bypass, stopped at least 120 hours ago; each status code, and each exception, exactly for its answer of AWS |
| Ladder.InstanceTable.ScanTable | core/cf/deployment/lambdas/unused_resources_detector/main.py:31-82 | the loop with its nested dictionaries and its `break` computes the scan that the lemmas below are about |
| Ladder.InstanceTable.HandleInstance | core/cf/deployment/lambdas/unused_resources_detector/main.py:91-151 | the four threshold tests together take at most one branch, the one of the specification, exceptions included |
| Ladder.InstanceTable.HandleGroup | core/cf/deployment/lambdas/unused_resources_detector/main.py:84-176 | a group is visited in order, stops at the first exception with earlier writes kept, and is then announced with the notification time of its last member |
| Ladder.InstanceTable.Handle | core/cf/deployment/lambdas/unused_resources_detector/main.py:28-176 | the whole handler on the mutable table is the function `Invoke` of the old table |
| Ladder.InstanceTable.GetById | core/cf/deployment/lambdas/process_events/utils/dynamodb.py:37-67 | the retry loop of the lookup is the function `LookUp`, from the first attempt on |
| Ladder.LookUpMissesIff | core/cf/deployment/lambdas/process_events/utils/dynamodb.py:37-67 | a known record is told as unknown if and only if all five queries are refused; what is told is what is stored |
| Ladder.LookUpRaisesIff | core/cf/deployment/lambdas/process_events/utils/dynamodb.py:37-67 | the lookup raises if and only if a query is rejected after at most four refusals |
| Ladder.InstanceTable.StoreDetection | core/cf/deployment/lambdas/process_events/aws/detect_unused_resources/main.py:10-36 | a record the lookup sees keeps its step and notification; when the lookup says "nothing", also after five refusals over a known record, the record starts over at step 0, never notified; a raise or a failed write changes nothing |
| Ladder.StoredFields | core/cf/deployment/lambdas/process_events/aws/detect_unused_resources/main.py:14-36 | field by field what a write leaves: the event's details in their places, the step and notification read or a start, every other record as it was |
| LadderGroups.GroupsPartitionOldRecords | core/cf/deployment/lambdas/unused_resources_detector/main.py:31-85 | the groups are a partition of the old records before the first SKIP: no creator or step twice, none empty, each holding exactly its records in scan order |
| LadderGroups.FlatInsert | core/cf/deployment/lambdas/unused_resources_detector/main.py:75-82 | filing a record puts it once into the visiting order and disturbs no other |
| LadderGroups.InvocationIsPointwise | core/cf/deployment/lambdas/unused_resources_detector/main.py:34-151 | although the work is done group by group, the table afterwards is the record-by-record image of the table scanned: a record not scanned or after the first SKIP is untouched, every other meets its own fate, or keeps its value only if the handler raised |
| LadderGroups.TableMovesByOneStep | core/cf/deployment/lambdas/unused_resources_detector/main.py:34-151 | key by key, an invocation leaves a record unchanged, removes it because its instance is no longer old or was imaged at step 3, or moves it exactly one step up, to 1, 2 or 3, with the time of its own group and a passed hour test; nothing appears |
| LadderAgenda.JudgeMeans | core/cf/deployment/lambdas/unused_resources_detector/utils.py:86-116 | when an instance is old, when it ends the scan, and when it cannot be judged, from the answer of the describe call |
| LadderAgenda.VisitPerforms | core/cf/deployment/lambdas/unused_resources_detector/main.py:91-151 | one visit, written from the literal steps and hours: its effects in order, and that it raises exactly on an unreadable time, a raised tag at step 2, or at step 4 an image not made or a raised termination |
| LadderAgenda.InvocationPerformsItsAgenda | core/cf/deployment/lambdas/unused_resources_detector/main.py:28-176 | the effects of an invocation are those of its looks, visits and sends in order, up to and with the first that raises; it raises exactly if there is one |
| LadderAgenda.FirstRaiseEndsIt | core/cf/deployment/lambdas/unused_resources_detector/main.py:145-151 | no effect of anything later in the order follows a raise |
| LadderAgenda.InvocationRaisesIff | core/cf/deployment/lambdas/unused_resources_detector/main.py:34-176 | an invocation raises if and only if a record scanned before the end of the scan meets a raising answer: its look, its untagging or message, its visit when old, or its group's message |
| LadderAgenda.GroupsInOrder | core/cf/deployment/lambdas/unused_resources_detector/main.py:75-85 | owners come in the order in which the scan first meets an old record of theirs, and so do the steps of each owner |
| LadderSafety.ReachableSteps | core/cf/deployment/lambdas/unused_resources_detector/main.py:34-151 | in every state of every run the stored step is 0 to 3 and "never notified" holds exactly at step 0 |
| LadderPlan.InvocationIsItsPlan | core/cf/deployment/lambdas/unused_resources_detector/main.py:28-176 | the handler reads the table once: on every table its effects are the same plan, carried out in order, and it raises or not alike |
| LadderPlan.PlanIsSound | core/cf/deployment/lambdas/unused_resources_detector/main.py:34-151 | every effect of every plan: a climb follows a passed hour test and a 120-hour sighting of the same invocation, a termination also directly the image |
| LadderSafety.ActKeeps | core/cf/deployment/lambdas/unused_resources_detector/main.py:106-151 | one effect of the detector, whatever others did to the table since its scan, keeps the invariant |
| LadderSafety.RunKeepsInv | core/cf/deployment/lambdas/unused_resources_detector/main.py:34-151 | the invariant holds over any interleaving of single effects of the detector, which may be cut off at any of them, with lookups and later writes of the other Lambda, any number of them waiting, from an empty table: every record is backed by climbs in the log, and so is every record read and not yet written |
| LadderSafety.RewriteKeeps | core/cf/deployment/lambdas/process_events/aws/detect_unused_resources/main.py:14-25 | writing back a record read earlier, whatever happened since, leaves it backed by the climbs of the moment it was read |
| LadderLog.HistoryPositions | core/cf/deployment/lambdas/unused_resources_detector/main.py:34-151 | the history of a record is a subsequence of the climbs of that key in the log |
| LadderLog.UninterruptedIff | core/cf/deployment/lambdas/process_events/aws/detect_unused_resources/main.py:14-25 | from its first climb on the record is never removed or reset if and only if no write behind its history, of either Lambda, was read before such a break |
| LadderLog.FreshWritesNeverInterrupt | core/cf/deployment/lambdas/process_events/aws/detect_unused_resources/main.py:14-25 | in particular when every record written was read after the last removal or reset before it |
| LadderSafety.NeverBrokenIff | core/cf/deployment/lambdas/unused_resources_detector/main.py:34-151 | for a termination, the record is never removed or reset from its first climb on if and only if its history is uninterrupted at the last scan and nothing breaks it after that |
| LadderSafety.FreshWritesNeverBreak | core/cf/deployment/lambdas/process_events/aws/detect_unused_resources/main.py:14-25 | that holds in particular when every record written was read after the last break before it and none comes after the last scan |
| LadderSafety.TerminationIsEarned | core/cf/deployment/lambdas/unused_resources_detector/main.py:34-151 | every termination in every run, stale and concurrent writes included: imaging it was the detector's effect just before, it was seen stopped for 120 hours in that invocation, and the record scanned had three notifications, each with its own 120-hour sighting, spaced by more than 120h, 312h and 24h minus a minute (plus the reader's zone error) |
| LadderSafety.LadderTakesNineteenDays | core/cf/deployment/lambdas/unused_resources_detector/main.py:34-151 | with equal zones, more than 456 hours minus three minutes and twice the lag pass between first notification and termination; in between the record is never removed or reset exactly under the condition of `NeverBrokenIff` |
| LadderSafety.WrittenGapNeedsNoLag | core/cf/deployment/lambdas/unused_resources_detector/main.py:89-106 | a passed hour test bounds the distance of the written times themselves by k hours minus a minute if and only if no time passes between writing and testing |
| LadderProgress.CalmInvocationMovesTheDue | core/cf/deployment/lambdas/unused_resources_detector/main.py:28-176 | from any reachable table and for any scan of it, an invocation in which AWS cooperates does not raise; every due record takes exactly its step, and every other one stays |
| LadderProgress.CalmInvocationSteps | core/cf/deployment/lambdas/unused_resources_detector/main.py:28-176 | for a scan of one due record, also what is done and in which order: imaging, terminating and removing at the top |
| LadderProgress.LadderCanFinish | core/cf/deployment/lambdas/unused_resources_detector/main.py:28-176 | the safety theorem is about something: for every key there is a run that ends in termination, 456 hours after the first notification |
| LadderProgress.StaleWriteCanInterrupt | core/cf/deployment/lambdas/process_events/aws/detect_unused_resources/main.py:14-25 | for every key there is a run in which a record read at step 3 is removed because the instance is in use, written back, and then terminated |
| LadderProgress.ResetCanComeDuringInvocation | core/cf/deployment/lambdas/process_events/aws/detect_unused_resources/main.py:26-36 | for every key there is a run in which a lookup that gave up resets the record between the scan that found it at step 3 and its termination |
| LadderProgress.WrittenGapCanBeShort | core/cf/deployment/lambdas/unused_resources_detector/main.py:89-131 | for every key there is a run whose first two written times are exactly 120h minus one minute apart |
| LadderProgress.ClimbCanGoUnannounced | core/cf/deployment/lambdas/unused_resources_detector/main.py:84-176 | for any two instances of one owner there is a run in which the first has climbed to step 2 and no message is built for an hour from the send on |
| Notifier.HoursOnlyGrow | core/cf/deployment/lambdas/unused_resources_detector/messenger.py:41-102 | elapsed whole hours, truncated toward zero, never decrease with time |
| Notifier.BuildMessage | core/cf/deployment/lambdas/unused_resources_detector/messenger.py:41-102 | which message each branch builds, for any step and hours, and for a resource in use or gone |
| Notifier.InvocationAnnounces | core/cf/deployment/lambdas/unused_resources_detector/main.py:84-176 | an invocation sends exactly one message per group, in visiting order, with the last member's notification time; an exception leaves a first part of them |
| Notifier.EveryGroupIsAnnounced | core/cf/deployment/lambdas/unused_resources_detector/messenger.py:41-102 | from any reachable table, every creator and step with old records is announced; if the last of them passed its hour test, the senders build the message of that very step whenever they look at the clock later, and they build one at all if and only if it would pass then |
| Notifier.BackedBuilds | core/cf/deployment/lambdas/unused_resources_detector/messenger.py:236-394 | detector and senders agree on every record whose stored time is the text of a recorded notification |
| Notifier.ClimbWithoutMessage | core/cf/deployment/lambdas/unused_resources_detector/messenger.py:685-755 | a group in which the first member climbs and nobody is told |
| StackSets.Contains | core/cmd/awshelper/cloudformation.go:743-750 | found exactly when present |
| StackSets.Unique | core/cmd/awshelper/cloudformation.go:731-741 | the same elements, each once |
| StackSets.Filter | core/cmd/awshelper/cloudformation.go:560-595 | each of the four difference loops, kept in order; `KeepElements` says which entries stay |
| StackSets.KeepElements | core/cmd/awshelper/cloudformation.go:560-595 | an entry stays exactly when it is wanted, not deployed and not the management account |
| StackSets.KeepConcat | core/cmd/awshelper/cloudformation.go:560-595 | the difference keeps order and repetitions |
| StackSets.BadIff | core/cmd/awshelper/cloudformation.go:528-545 | a status is bad if and only if it reads FAILED or CANCELED anywhere |
| StackSets.StackSet.CreateStackSetInstances | core/cmd/awshelper/cloudformation.go:627-653 | a create that succeeds adds the targets times the regions, marks exactly these current, and leaves the others |
| StackSets.ListedProjections | core/cmd/awshelper/cloudformation.go:513-545 | the columns collected over any page split are the two projections of the deployed relation |
| StackSets.PlanRound | core/cmd/awshelper/cloudformation.go:513-558 | over any page split, the four lists are the set differences of the wanted and the deployed accounts and regions, and the flag is set exactly when some instance failed or was cancelled |
| StackSets.StackSet.DeployStackSet | core/cmd/awshelper/cloudformation.go:655-693 | creates exactly when the plan asks for it, with all wanted regions, and leaves the relation of that effect; any failed operation ends it |
| StackSets.StackSet.CleanupStackSetInstances | core/cmd/awshelper/stacksets.go:384-435 | which delete operations are issued, in which order and reach; a StackSet without OUs is left alone |
| StackSets.StackSet.Reconcile | core/cmd/deploy/deploy.go:670-688 | a deploy and its cleanup together leave the relation `AfterRound`, issue exactly the planned operations in order, and succeed exactly when these do; an empty plan issues none |
| StackSetRuns.NothingPlannedNothingMissing | core/cmd/awshelper/cloudformation.go:513-595 | on a rectangle the two projections are enough: no create planned means no pair is missing |
| StackSetRuns.RoundLeaves | core/cmd/awshelper/stacksets.go:384-427 | pair by pair, what a round leaves deployed, with the planner's list, the accounts the OUs expand to and the accounts a delete reaches all independent |
| StackSetRuns.RoundConvergesIff | core/cmd/deploy/deploy.go:670-688 | for any relation, a round ends with the listed accounts times the regions if and only if what is missing is created and expanded to, every other pair is within the OUs, and a create makes nothing for an unlisted account that had nothing |
| StackSetRuns.RoundCoversTargetsIff | core/cmd/deploy/deploy.go:670-688 | and with what the OUs expand to, times the regions, if and only if listed targets are there or created, unlisted ones are new and created, and every other pair is within the OUs and unwanted |
| StackSetRuns.RectangleRound | core/cmd/deploy/deploy.go:670-688 | from a rectangle inside the OUs, with a list that may miss targets, exactly the listed accounts and, with a create, the targets without instances are deployed in the regions |
| StackSetRuns.RectangleConvergesIff | core/cmd/deploy/deploy.go:670-688 | so it covers what the OUs expand to if and only if the list missed nothing, or only accounts without instances in a round that created, or there are no regions |
| StackSetRuns.StepKeepsRectangle | core/cmd/awshelper/cloudformation.go:655-693 | rounds with incomplete lists, joining and leaving accounts keep the relation a rectangle |
| StackSetRuns.RunsConverge | core/cmd/deploy/deploy.go:670-688 | from no instances, whatever earlier lists missed, the relation after every round of every run is known exactly; it is the OUs' accounts times the regions under the condition of `RectangleConvergesIff`, in particular after every round whose list is complete |
| StackSetRuns.ListIsCompleteIff | core/cmd/awshelper/accounts.go:341-359 | the describe loop's list holds only active accounts, and all of them if and only if each got an ACTIVE answer; without duplicates, if and only if no call about an active account failed |
| StackSetRuns.RedeployKeepsTargetsIff | core/cmd/deploy/deploy.go:670-688 | a redeploy on a converged StackSet leaves exactly the accounts of that list, so it stays converged if and only if every active account got an ACTIVE answer |
| StackSetRuns.SecondRoundIsQuiet | core/cmd/awshelper/cloudformation.go:655-693 | a second round deletes nothing, and creates nothing exactly when no status is bad and accounts and regions are both empty or both not |
| StackSetRuns.UnlistedAccountIsCreated | core/cmd/awshelper/cloudformation.go:627-653 | an unlisted account in the OUs is deployed to by the first create |
| StackSetRuns.UnlistedAccountIsRemoved | core/cmd/awshelper/stacksets.go:407-420 | an unlisted account in the OUs loses the instances it had |
| StackSetRuns.ListedOutsideTargetsBreaksRectangle | core/cmd/awshelper/cloudformation.go:627-653 | a listed account the OUs do not expand to gets no new region, so the relation stops being a rectangle |
| StackSetRuns.DiagonalIsNotRepaired | core/cmd/awshelper/cloudformation.go:513-595 | without the rectangle the plan is wrong: a deployed diagonal is taken for complete |
| StackSetRuns.LeftoverHidesRegion | core/cmd/awshelper/stacksets.go:407-420 | an account that left the OUs keeps its instances and hides a region that another account misses |
| Organization.FlattenCounts | core/cmd/awshelper/accounts.go:257-314 | the flatten both traversals are measured against lists every account of the subtree exactly as often as it occurs there, and none that is left out |
| OrgTraversalGo.CallSucceedsIff | core/cmd/awshelper/accounts.go:257-314 | a call succeeds if and only if, for some number of refusals up to five, that many and all pages are what its first attempts meet |
| Organization.RefusalsCount | core/cmd/awshelper/accounts.go:257-314 | the refusals that count are exactly the attempts refused |
| OrgTraversalGo.GetDeploymentTargetChildren | core/cmd/awshelper/accounts.go:257-314 | for any tree, page split and pattern of failures: an error exactly when some call of the subtree meets a sixth failure, otherwise the flatten in order, every account as often as it occurs but neither the management account nor an excluded one, every page read once; backoff 2(2^k - 1), at most 62 seconds |
| OrgTraversalGo.KeepActive | core/cmd/awshelper/accounts.go:341-359 | an error exactly on the sixth failed describe, otherwise the accounts that answered ACTIVE, in order |
| OrgTraversalGo.DescribeFailuresCount | core/cmd/awshelper/accounts.go:341-359 | the failures that count are exactly the calls that failed |
| OrgTraversalGo.ListTargets | core/cmd/awshelper/accounts.go:330-339 | both listings of every target, in order, without the management account and the excluded ones; an error exactly when one of them fails |
| OrgTraversalGo.GetDeploymentTargetActiveAccounts | core/cmd/awshelper/accounts.go:316-365 | for OUs and for accounts named one by one: when it succeeds, and which accounts it answers; of OUs never the management account nor an excluded one |
| OrgTraversalGo.ActiveCompleteIff | core/cmd/awshelper/accounts.go:341-359 | the result is all active accounts if and only if no describe call about an active account failed |
| OrgTraversalPython.GetChildren | core/cf/deployment/slack_socket_app/utils/sso_helper.py:21-56 | for every completion order of the futures the same multiset; the refusals counted are those met, at most five, and backoff is 3(2^k - 1), at most 93 seconds |
| OrgTraversalPython.AsCompleted | core/cf/deployment/slack_socket_app/utils/sso_helper.py:54-55 | collecting in any order adds up to the same multiset |
| OrgTraversalPython.GatheredPlusLost | core/cf/deployment/slack_socket_app/utils/sso_helper.py:21-56 | what is gathered and what is lost by giving up is together exactly the flatten: nothing counted twice, nothing invented |
| OrgTraversalPython.PagesReadAll | core/cf/deployment/slack_socket_app/utils/sso_helper.py:29-53 | a call reads all its pages if and only if fewer than five attempts are refused before the last |
| OrgTraversalPython.StopsAtFifthRefusal | core/cf/deployment/slack_socket_app/utils/sso_helper.py:29-53 | a call that does not read all pages stops at its fifth refusal, with exactly the pages answered before |
| OrgTraversalPython.CompleteWhenFewRefusals | core/cf/deployment/slack_socket_app/utils/sso_helper.py:21-56 | with fewer than five refusals in every call of the subtree the result is the whole flatten and nothing is lost |
| OrgTraversalPython.GetActiveChildAccounts | core/cf/deployment/slack_socket_app/utils/sso_helper.py:57-83 | for every completion order, each account is reported as often as one of its describe calls answered ACTIVE, calls about the same account being independent |
| OrgTraversalPython.AnswersCount | core/cf/deployment/slack_socket_app/utils/sso_helper.py:68-83 | how often an account is reported is the number of its calls that answered ACTIVE |
| OrgTraversalPython.AskedWithinFlatten | core/cf/deployment/slack_socket_app/utils/sso_helper.py:57-67 | no account is asked about more often than it occurs under the targets; exactly as often when every listing completes |
| OrgTraversalPython.ActiveReportedIff | core/cf/deployment/slack_socket_app/utils/sso_helper.py:68-83 | complete listings report exactly the active accounts if and only if no describe about one of them failed |
| FanOut.StepKeepsInv | core/cmd/awshelper/stacks.go:45-98 | every atomic step of the caller or a worker keeps the protocol invariant |
| FanOut.RunKeepsInv | core/cmd/awshelper/stacks.go:45-98 | the invariant holds in every state of every interleaving |
| FanOut.SendsNeverBlock | core/cmd/awshelper/stacks.go:45-98 | in every reachable state, for any number of regions: no panic, exact WaitGroup counter, and every running worker can send or finish at once, without a panic |
| FanOut.CallerProceeds | core/cmd/awshelper/stacks.go:45-98 | no deadlock before the caller has returned |
| FanOut.StepDoesWork | core/cmd/awshelper/stacks.go:649-702 | every step lowers a measure |
| FanOut.RunsTerminate | core/cmd/awshelper/stacks.go:649-702 | no interleaving takes more than 5n + 4 steps for n regions |
| FanOut.ErrorIffSomeWorkerFailed | core/cmd/awshelper/stacks.go:89-98 | at return all workers have finished, and there is an error if and only if some worker failed; it is a failed worker's own |
| PolicyVersions.HeadIsNewest | core/cf/deployment/sfn/ssm_instance_automation/utils.py:208-215 | the head of the sorted version list has the greatest creation date, whatever order IAM lists them in |
| PolicyVersions.NewestFirstIsSorted | core/cf/deployment/sfn/ssm_instance_automation/utils.py:208-215 | the sorted list holds every version, newest first |
| PolicyVersions.RefusalStops | core/cf/deployment/sfn/ssm_instance_automation/utils.py:214-222 | what a refused rotation leaves: the versions newer than the default are gone but for the latest, older ones and the default are there |
| PolicyVersions.DeletesAllButDefaultOrRefuses | core/cf/deployment/sfn/ssm_instance_automation/utils.py:208-222 | the delete loop leaves just the default version if that is the newest, and is otherwise refused with the default intact |
| PolicyVersions.ManagedPolicy.DeleteOlderVersions | core/cf/deployment/sfn/ssm_instance_automation/utils.py:208-222 | the loop on the object is that delete sequence, stopping where IAM refuses |
| PolicyVersions.ManagedPolicy.GetCustomPolicyArn | core/cf/deployment/sfn/ssm_instance_automation/utils.py:184-232 | an error exactly when the document differs, five versions exist and the newest is not the default; otherwise the wanted document is the default. Which versions remain and how many creates were tried in each case; never more than five versions, never an empty return |
| PolicyVersions.SettledKeepsInvariant | core/cf/deployment/sfn/ssm_instance_automation/utils.py:184-232 | a successful call keeps "the newest version is the default" and makes the wanted document the default |
| PolicyVersions.HistoryNeverRaises | core/cf/deployment/sfn/ssm_instance_automation/utils.py:184-232 | from creation on, in any series of calls with increasing dates, no call is one that raises and the default is always what was last asked for |
| VpcEndpoints.ServeOne | core/cf/deployment/sfn/ssm_instance_automation/utils.py:540-549 | serving one service settles it, disturbs no other and adds an endpoint only where none was |
| VpcEndpoints.ServeAllSettles | core/cf/deployment/sfn/ssm_instance_automation/utils.py:525-549 | after the loop every listed service, repeated or not, has a good first endpoint, one if it had none and as many as before otherwise; all other endpoints are untouched |
| VpcEndpoints.PassByFields | core/cf/deployment/sfn/ssm_instance_automation/utils.py:448-523 | the pass by fields: an endpoint that was there keeps its identity, its other groups and its private DNS, and gains at most what it lacked; a new one is created once, for a listed service without one, with exactly these settings; every listed service is then served |
| VpcEndpoints.ChangeForMeans | core/cf/deployment/sfn/ssm_instance_automation/utils.py:540-549 | a create is asked for exactly when an endpoint is new, a modify for exactly the endpoint that changes, and nothing exactly when nothing does |
| VpcEndpoints.ServedNeedsNothing | core/cf/deployment/sfn/ssm_instance_automation/utils.py:525-549 | services already served cause no change |
| VpcEndpoints.SecondPassChangesNothing | core/cf/deployment/sfn/ssm_instance_automation/utils.py:525-549 | so a second pass is the identity |
| VpcEndpoints.AwaitMeaning | core/cf/deployment/sfn/ssm_instance_automation/utils.py:550-558 | the check loop ends with wait 0 exactly when all endpoints were seen available, else with wait 60 and the waiting marker |
| VpcEndpoints.ServedAsksNothing | core/cf/deployment/sfn/ssm_instance_automation/utils.py:540-549 | on a network that serves every listed service, no create and no modify is asked for |
| VpcEndpoints.HandledAreServed | core/cf/deployment/sfn/ssm_instance_automation/utils.py:540-549 | also when a refusal cuts the pass short, the services handled so far are served and repeating them asks for nothing |
| VpcEndpoints.HandledIs | core/cf/deployment/sfn/ssm_instance_automation/utils.py:540-549 | the pass goes as far as the first service that cannot be described or whose refused change would have made a difference |
| VpcEndpoints.Automation.ServeServices | core/cf/deployment/sfn/ssm_instance_automation/utils.py:540-549 | the loop on the network is the pass up to the first service whose endpoint cannot be described or whose needed change is refused, with exactly the creates and modifies of that part; it raises if and only if there is such a service |
| VpcEndpoints.Automation.VpcEndpointManager | core/cf/deployment/sfn/ssm_instance_automation/utils.py:525-562 | the whole manager: it raises if and only if it cannot get to its first loop, a service fails there, or a state cannot be read in the second; network and changes of the pass also then; nothing without a VPC |
| TaskMarker.Handler.LambdaHandler | core/cf/deployment/sfn/ssm_instance_automation/main.py:20-66 | the handler working on the network returns the payload of the state machine, raises and runs the role stage exactly when that does, and leaves exactly the endpoints of the stage |
| TaskMarker.HandleStep | core/cf/deployment/sfn/ssm_instance_automation/main.py:27-66 | one invocation with any marker it can find: wait 0 or 60, 60 only with a waiting marker, and a role stage only after settled endpoints or while waiting for the instance |
| TaskMarker.PayloadMeans | core/cf/deployment/sfn/ssm_instance_automation/main.py:20-66 | entry by entry what an invocation returns for any marker: when it raises, when it asks to wait for endpoints, when for the instance, and otherwise wait 0 with which marker |
| TaskMarker.RoleRunsAtAllIff | core/cf/deployment/sfn/ssm_instance_automation/main.py:27-66 | when the role stage runs, for any marker and configuration |
| TaskMarker.RoleStageMeans | core/cf/deployment/sfn/ssm_instance_automation/utils.py:303-318 | over every sequence of re-invocations, the wait for the instance is asked for if and only if the role stage ran and the instance is neither running, stopped nor terminated; otherwise the stage raises exactly if it goes wrong, and else there is no wait |
| TaskMarker.RoleOnlyAfterEndpoints | core/cf/deployment/sfn/ssm_instance_automation/main.py:27-66 | over any sequence of re-invocations, exceptions included: the role stage runs only if in this or an earlier one all endpoints were seen available or there was no VPC |
| TaskMarker.RoleRunsExactly | core/cf/deployment/sfn/ssm_instance_automation/main.py:27-66 | in every such sequence, the exact condition for the role stage to run in an invocation |
| TaskMarker.NoVpcWhileWaitingSkipsRole | core/cf/deployment/sfn/ssm_instance_automation/main.py:41-60 | an instance that waited for endpoints and has no VPC any more is done with, without a wait and without its role |
| BucketEmptier.Bucket.EmptyS3Bucket | core/cmd/awshelper/s3.go:88-129 | success if and only if no listing and no delete failed, as a whole or for one key; then nothing is left and every entry was asked for exactly once; batches are nonempty and within 1000; the loop terminates |
| BucketEmptier.Bucket.DeleteS3BucketIfExists | core/cmd/awshelper/s3.go:131-155 | success if and only if the bucket was absent or emptying and deleting it worked, and if and only if it is gone; it is deleted once, exactly when emptying worked, and then it is empty |
| BucketEmptier.DeletingBehindTheMarkerSkipsNothing | core/cmd/awshelper/s3.go:88-129 | after a page is deleted, what is still live is exactly what the listing has yet to show |
| BucketEmptier.PageDone | core/cmd/awshelper/s3.go:88-129 | one page of the loop, with the multiset of all entries asked for so far |
| LockPolicy.ScanDirect | scripts/check_supply_chain_policy.py:50-65 | the errors of the bad lines in order, and per package the version of its last exact pin |
| LockPolicy.MatchPinIff | scripts/check_supply_chain_policy.py:11 | the pin expression on every line: a name, two equal signs, a version up to white space or a backslash |
| LockPolicy.NormalizeIs | scripts/check_supply_chain_policy.py:14-15 | names are lower-cased and underscores become hyphens, character by character |
| LockPolicy.ClassifyIs | scripts/check_supply_chain_policy.py:50-65 | which direct lines are ignored, rejected with which error, or pinned, by what they read |
| LockPolicy.RowsAre | scripts/check_supply_chain_policy.py:50-72 | errors name their line counted from 1, lines are stripped, and a lock line is hashed exactly if it holds the hash option |
| Text.StripIs | scripts/check_supply_chain_policy.py:51-71 | stripping takes white space from both ends, all of it and nothing else |
| LockPolicy.DirectErrorsConcat | scripts/check_supply_chain_policy.py:50-65 | rejected lines are reported one by one, in order |
| LockPolicy.ScanLock | scripts/check_supply_chain_policy.py:67-84 | the one-pass scan reports exactly the blocks without a hash, in order and with the right line, the last block included |
| LockPolicy.ScanPackageRow | scripts/check_supply_chain_policy.py:72-81 | at a package line the flag carried along tells whether the block just closed has a hash |
| LockPolicy.HashErrorsCountBlocks | scripts/check_supply_chain_policy.py:67-84 | as many missing-hash errors as blocks without a hash |
| LockPolicy.BlockErrorIs | scripts/check_supply_chain_policy.py:72-84 | the error of a block without a hash names its package and the line before the next block, or no line for the last |
| LockPolicy.HashErrorsSay | scripts/check_supply_chain_policy.py:67-84 | these errors come block after block |
| LockPolicy.BlocksCoverThePackages | scripts/check_supply_chain_policy.py:67-80 | a block starts at every package line and nowhere else; it holds no other, and none comes before the first |
| LockPolicy.LastPinsGrow | scripts/check_supply_chain_policy.py:62-80 | the dictionary always holds the last pin of every package seen |
| LockPolicy.SortedList | scripts/check_supply_chain_policy.py:86-89 | a set of packages in increasing order, by the first differing character, each once |
| LockPolicy.LessIff | scripts/check_supply_chain_policy.py:86-89 | the order is that of the first differing character, a prefix first |
| LockPolicy.ReportMissing | scripts/check_supply_chain_policy.py:86-87 | the directly pinned packages that the lock lacks, in sorted order |
| LockPolicy.ReportDiffering | scripts/check_supply_chain_policy.py:89-98 | the packages whose versions differ, in sorted order, with both versions |
| LockPolicy.CheckRequirementLock | scripts/check_supply_chain_policy.py:44-98 | silent if and only if the lock exists, no direct line is rejected, every block has a hash and each last direct pin equals the last locked one; otherwise exactly one error per violation, in the order lines, blocks, missing packages, differing packages |
| EventBusPolicy.BlocksPartitionTheFile | scripts/check_event_bus_policy.py:26-30 | the blocks joined are the file from its first header on; each starts with a header and has no other |
| EventBusPolicy.ReadNestedBlock | scripts/check_event_bus_policy.py:33-44 | the index loops compute the nested block of the specification |
| EventBusPolicy.NestedBlockIsMaximal | scripts/check_event_bus_policy.py:33-44 | which is the maximal run of blank or deeper lines after the first line naming the key |
| EventBusPolicy.NoNestedBlock | scripts/check_event_bus_policy.py:33-44 | without a line naming the key there is no block |
| EventBusPolicy.ReadListValues | scripts/check_event_bus_policy.py:47-70 | the loops read the set of the specification, or raise on an inline value |
| EventBusPolicy.KeyLineIff | scripts/check_event_bus_policy.py:47-52 | a key line is the key, any white space, a colon and the rest |
| EventBusPolicy.IndentIs | scripts/check_event_bus_policy.py:22-23 | indentation is the number of white-space characters a line starts with |
| EventBusPolicy.ItemIs | scripts/check_event_bus_policy.py:62-67 | an item is a dash, a blank and its text, not less deep than the key; its value is the text without quotes |
| EventBusPolicy.UnquoteIs | scripts/check_event_bus_policy.py:66 | any run of either quote goes from both ends, and only that |
| EventBusPolicy.ItemsAre | scripts/check_event_bus_policy.py:60-70 | on any lines, the values read are those of the items before the first line that is no item and not deeper |
| EventBusPolicy.InlineValueRaises | scripts/check_event_bus_policy.py:52-57 | an inline value is refused |
| EventBusPolicy.PrintedListReadsBack | scripts/check_event_bus_policy.py:47-70 | any list of clean values printed as a block sequence of YAML 1.2.2 (section 8.2.1, or unindented as in section 8.2.3), plain or quoted, among any unrelated lines, is read back as its set |
| EventBusPolicy.PrintedRuleReadsBack | scripts/check_event_bus_policy.py:73-89 | the same for a whole rule: both lists inside its event pattern, whatever surrounds them |
| EventBusPolicy.BadRule | scripts/check_event_bus_policy.py:73-89 | a rule whose pattern gives a list inline, not at all or empty is bad |
| EventBusPolicy.ForwardsIff | scripts/check_event_bus_policy.py:150-160 | which blocks are forwarding rules |
| EventBusPolicy.SourcesFirst | scripts/check_event_bus_policy.py:173-181 | a printed policy block is read back: sources under one key, detail types under the other, in this order |
| EventBusPolicy.TypesFirst | scripts/check_event_bus_policy.py:173-181 | and in the other order |
| EventBusPolicy.PolicyReadsBack | scripts/check_event_bus_policy.py:173-181 | the policy is the first block headed `EventBusPolicy:`, its sources and its detail types each in their place |
| EventBusPolicy.NoPolicyNothingAllowed | scripts/check_event_bus_policy.py:173-181 | without such a block nothing is allowed |
| EventBusPolicy.VerdictMeans | scripts/check_event_bus_policy.py:184-202 | end to end: on a policy that prints these sets, OK if and only if nothing raises, and a source or detail type is printed exactly when some rule of some file, or the Python rules, forward it |
| EventBusPolicy.ForwardedIsUnion | scripts/check_event_bus_policy.py:150-170 | an exception exactly if some forwarding rule is bad, otherwise the union over the forwarding rules, element by element |
| EventBusPolicy.ForwardedContracts | scripts/check_event_bus_policy.py:150-170 | the accumulating loops over files and blocks compute that union |
| EventBusPolicy.CheckPolicy | scripts/check_event_bus_policy.py:184-202 | the script computes the verdict that `VerdictMeans` is about: OK if and only if nothing raised, reading the Python rules included, and forwarded and allowed sets are equal |
| Sanitize.ChainIsOnePass | core/cf/deployment/lambdas/process_events/messenger/sanitize.py:23-34 | for any table whose entities hold no character replaced later, the chain of replaces is one pass over the characters |
| Sanitize.OnePassConcat | core/cf/deployment/lambdas/process_events/messenger/sanitize.py:23-34 | escaping distributes over concatenation |
| Sanitize.PassLeavesNoRaw | core/cf/deployment/lambdas/process_events/messenger/sanitize.py:23-34 | no escaped character survives unless an entity contains it |
| Sanitize.DecodeUndoesPass | core/cf/deployment/lambdas/process_events/messenger/sanitize.py:23-34 | a one-pass decoder gives back every text, for any decodable table |
| Sanitize.MrkdwnEscapes | core/cf/deployment/lambdas/process_events/messenger/sanitize.py:28-34 | the Slack form: one pass, homomorphic, without angle brackets, invertible and so injective |
| Sanitize.MrkdwnOneCharacter | core/cf/deployment/lambdas/process_events/messenger/sanitize.py:28-34 | the three entities themselves, character by character |
| Sanitize.HtmlEscapes | core/cf/deployment/lambdas/process_events/messenger/sanitize.py:23-26 | the same for the five-entity HTML form, also without quotes |
| Sanitize.HtmlOneCharacter | core/cf/deployment/lambdas/process_events/messenger/sanitize.py:23-26 | the five entities themselves, character by character |
| SlackIds.TaggingModal | core/cf/deployment/slack_socket_app/helper.py:111-131 | one input block per missing tag, in order, with id and initial value of that tag |
| SlackIds.InitialValueIff | core/cf/deployment/slack_socket_app/helper.py:112-131 | the pre-filled value is everything after the first `=`, if and only if there is no second one; a tag without `=` has none |
| SlackIds.SubmittedTags | core/cf/deployment/slack_socket_app/app.py:148-155 | one tag per submitted block, in order, with the key recovered from the block id |
| SlackIds.TagKeySurvivesIff | core/cf/deployment/slack_socket_app/app.py:148-155 | a key comes back if and only if it does not contain the marker `block_` |
| SlackIds.ModalRoundTrip | core/cf/deployment/slack_socket_app/app.py:148-155 | through both loops, for any list of tags and any values: the tags sent are exactly the ones asked for, with their values, if and only if no key contains the marker |
| SlackIds.RolePolicyDecodesIff | core/cf/deployment/slack_socket_app/helper.py:169-189 | `role:policy` gives back the pair, for any policy, if and only if the role has no colon |
| SlackIds.UserKeyDecodesIff | core/cf/deployment/slack_socket_app/helper.py:169-189 | `user:key` gives back the pair exactly when neither part has a colon, and raises otherwise |

## Left out

- LadderSafety.RunKeepsInv: the detector does not overlap with a second invocation of itself, and each put or delete is one step.
- OrgTraversalPython.GetChildren: nested calls share no state, so a future is represented by its result and only the order of collection is free; the thread pool itself is not modelled, and which attempts are refused depends on the unit and the kind of call.
- OrgTraversalPython.GetActiveChildAccounts: the default `None` for the exclusions, on which the membership test would raise, is not modelled.
- StackSetRuns.RunsConverge: takes rounds without errors while all deployed accounts are in the OUs, with lists that name only accounts the OUs expand to; without the last, rounds need not keep a rectangle (`ListedOutsideTargetsBreaksRectangle`). What a failed operation leaves behind is arbitrary and outside the runs.
- VpcEndpoints.SecondPassChangesNothing: takes the order in which endpoints are listed as stable between passes, which matters for a service with several endpoints, since only the first one listed is looked at.
- SlackIds.SubmittedTags: two missing tags with the same key give two blocks with one id, which a view does not accept; the submitted state is taken as a list of pairs in view order.
- Calendar dates: a date is a day number, the clock text is exact; `strptime`'s looser forms and the zone database are left out, the reader's zone is a parameter.
- The security-group and EBS parts of the detector, which repeat a single lookup and delete without steps.
- Message bodies, HTML tables, Slack blocks and the sending itself; only the guards and whether a send raises are kept.
- Table scans beyond what one call returns: a scan is any duplicate-free part of the table.
- Self-managed and standalone StackSets, operation polling, sleeps, process exit on fatal errors, and status texts other than the failed and cancelled ones. Regions of the StackSet are taken to be those with instances.
- A channel error is the index of the worker that sent it; region-specific work inside a worker is success or failure.
- IAM errors other than the version limit and the refused delete; attaching policies and roles; `instance_role_manager` is a status, no instance or an exception.
- Subnets, security-group creation and DNS options of VPC endpoints; the service list is an input.
- Bucket writers that run at the same time as the emptying.
- The workflow, Dockerfile and Go-module checks of the supply-chain script, and the parsing of Python sources in the event-bus script, whose result is an input.
- Regular expressions are written out as functions on strings; a line is what `splitlines` makes of a file, which is not modelled.
- The tagging modal's JSON around its blocks, message hardening decorators, parameter maps and environment loading, the dispatch of process events, and the daily reports.
