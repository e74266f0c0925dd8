# GlobalNetwork reconciliation: a verified model

This project models the core of the ACK controller for AWS Network Manager that drives a backend
global network toward its Kubernetes custom resource (CR) and records the outcome. It proves what that
core is for: tags converge and are never lost on the way, one update is enough, a resource never gets a
second live network, the conditions tell the history of outcomes, and the manager cache hands out only
managers that fit the request.

`dafny verify dfyconfig.toml` checks the whole project.

## How it is built

Code that changes things step by step is imperative here too. API objects are heap objects
(`Api.dfy`): a `*string` is a `StringCell`, a slice is an array whose slots may be null, and `View()`
reads an object graph as a value. Each method is proved against a function of such values, and the laws
are lemmas about those functions.

| file | models |
|---|---|
| `TagLists`, `TagRules` | tag lists and maps as values; the laws of conversion, EnsureTags, FilterSystemTags, mirrorAWSTags |
| `Api`, `NetworkList` | the API objects and their generated deep copies |
| `Tags`, `TagManager` | the loops of `tags.go`, and the methods of `manager.go` built on them |
| `SyncProtocol`, `SyncRetry`, `SyncTags` | one `SyncTags` attempt, any sequence of attempts, and the code |
| `Client` | the backend as a mutable store behind calls that may fail |
| `Delta`, `Sdk`, `UpdateFixpoint` | `newResourceDelta`; find, create, update, delete; one update reaches a fixpoint |
| `UpdateRetry` | any sequence of rounds of read, delta and update in which every call may fail |
| `ConditionRules`, `Conditions` | the condition state machine, and `updateConditions`, `onError`, `onSuccess` |
| `Manager`, `Lifecycle` | ReadOne, Create, Update, Delete; all runs of them |
| `ManagerCache`, `ManagerFactory` | `ManagerFor` under every interleaving, and on the factory's own map |
| `TagCycle` | the tags over whole reconciliation cycles |
| `Errors`, `Wrappers` | the error values that the code tells apart; optional values and slices of pointers |

A Go map is iterated in an arbitrary order. Where that order shows in a result it is a ghost result of
the method (`tail`, an enumeration of the left-over keys), and every lemma holds for each of its values.

## What is assumed

Library and backend behaviour that the repository does not contain:

- `MapStringStringEqual` is equality of maps, and `HasNilDifference` says that exactly one of two
  pointers is nil.
- `acktags.Merge` keeps the entries of its first map and adds those of the second whose key is missing
  (as `pkg/resource/global_network/manager.go:285-291` documents EnsureTags). It returns a new map.
- `DifferentAt` and `DifferentExcept` are queries over the recorded paths.
- Each backend call atomically succeeds or fails. The backend stores what it is given; an update that
  omits the description leaves it unchanged; a response carries ID and ARN and lists each tag once, in
  any order; IDs are never reused; DescribeGlobalNetworks answers ResourceNotFoundException only for a
  network that is not there.
- The AWS SDK does not return the controller's own error values (`Errors.FromSDK`). Error texts are
  opaque strings.
- `GetDefaultTags` is a parameter of EnsureTags.
- In `Lifecycle`, the reconciler attempts Create only right after a ReadOne that answered NotFound, keeps
  the returned status, and gives Update a desired and a latest CR with the same network ID. Others may
  create and delete networks of their own at any time, and may delete this resource's.
- In `SyncRetry` and `UpdateRetry`, nobody else writes to the network between attempts, and each attempt
  starts from a fresh read.
- Loop variables are per iteration, so `&k` and `&v` in `fromACKTags` are distinct cells; the module
  declares Go 1.25 (`go.mod:3`).

The methods of `Client.NetworkManagerClient` are these assumptions about the backend, written out. The client
logs every request with the answer it gave, so that the contracts of its callers say what they send and how
they turn answers into errors.

Preconditions, all of them from dereferences in the code:

- no nil slot in a tag or condition slice that the code always loops over;
- `sdkUpdate` needs an ARN in the desired CR when the tags differ
  (`pkg/resource/global_network/sdk.go:308`), and tags on which `SyncTags` does not panic;
- `newResourceDelta` does not get two nil resources.

Two panics are outcomes instead of preconditions. `SyncTags` panics exactly unless
`SyncTags.SafeToSync` holds -- keys are present, and so is the last value of each desired key and of each
existing key that is also desired -- and then it has sent nothing. ReadOne panics exactly if the network is
found and the CR has a nil tag slot. `UpdateRetry.RoundIsSafe` and `UpdateRetry.MirroredIsFit` show that the
tags that EnsureTags, mirrorAWSTags and a read produce never make `SyncTags` panic.

## What is not so

Each of these holds only under a condition. The condition is proved to be exact, for all inputs, and that it
can fail is shown as well:

- One update is a fixpoint exactly unless the desired CR has no description while the network has one:
  the request cannot say "remove it" (`UpdateFixpoint.UpdateReachesFixpoint`,
  `UpdateFixpoint.RemovedDescriptionStays`; over whole runs `UpdateRetry.SuccessIsForever`).
- FilterSystemTags undoes EnsureTags exactly when every default tag that was added has a system key
  (`TagRules.EnsureFilterRoundTrip`, `TagRules.ForeignDefaultStays`, `TagCycle.CycleSettles`).
- onError answers with the terminal sentinel exactly for terminal errors, when a second Terminal condition
  was left True, or when it is given the sentinel, which `updateConditions` does not call terminal
  (`ConditionRules.OnErrorClassifies`, `ConditionRules.DuplicateTerminalMisleads`).
- A manager cache key stands for one account, region and role exactly when account and region contain no
  slash (`ManagerCache.KeyStandsForOne`, `ManagerCache.SlashesCollide`).
- The comment at `pkg/resource/global_network/manager_factory.go:58-60` says that keys avoid several
  managers for one combination. Calls for one key get one manager exactly when no two of them looked
  before the first store (`ManagerCache.OneManagerIffOneEarly`); two calls that both miss build two
  (`ManagerCache.RaceBuildsTwo`), and `ManagerCache.StableForever` says from when on there is one.
- A read of a missing network whose call does not otherwise fail lets Create follow, unless a second Terminal
  condition was left True: then onError hides NotFound behind the terminal sentinel (`Manager.ReadOne`,
  `Lifecycle.MissingIsCreated`, `ConditionRules.OnErrorClassifies`).
- A second live network can appear exactly when the status that names the live one is replaced by another
  (`Lifecycle.LostStatusDuplicates`, `Lifecycle.LostStatusStep`).

## Model

| member | source | states |
|---|---|---|
| `TagLists.TagMapIsLastWins` | pkg/resource/global_network/tags.go:43-52 | a key is in the converted map iff a tag has it, with the value of the last such tag ("" for nil); tags with a nil key do not count |
| `TagLists.TagMapIgnoresOrder` | pkg/resource/global_network/tags.go:43-52 | for lists with distinct keys, any permutation converts to the same map |
| `TagLists.SameMapReorders` | pkg/resource/global_network/tags.go:43-52 | lists with distinct keys and present values convert to the same map iff they are permutations of each other |
| `TagLists.KeptEnumerates` | pkg/resource/global_network/tags.go:64-71 | the ordered part of the list has each key of both key order and map exactly once |
| `TagLists.KeptKeepsOrder` | pkg/resource/global_network/tags.go:64-71 | ordered keys stand in the order of their first occurrence in the key order |
| `TagLists.MapListMapRoundTrip` | pkg/resource/global_network/tags.go:61-78 | map to list to map is the identity for every key order (duplicate, missing or unknown keys included) and every iteration order; each key once, ordered keys first |
| `TagLists.NormalForms` | pkg/resource/global_network/tags.go:36-78 | list to map to list is the identity exactly on lists with distinct non-nil keys and non-nil values |
| `TagLists.NormalizeIdempotent` | pkg/resource/global_network/tags.go:36-78 | normalizing twice is normalizing once |
| `TagLists.NormalizeMap` | pkg/resource/global_network/tags.go:36-78 | normalization keeps the map of a list and leaves distinct keys and present values |
| `TagLists.NormalizeIsFromTags` | pkg/resource/global_network/tags.go:61-78 | right after the conversion fromACKTags has no left-over key, so its result does not depend on iteration order |
| `Tags.ConvertToOrderedACKTags` | pkg/resource/global_network/tags.go:36-55 | returns a new map and the key order of the list that the slice denotes, and changes nothing |
| `Tags.TakeOrdered` | pkg/resource/global_network/tags.go:64-71 | the ordered keys become new tags in order, and exactly they leave the caller's map |
| `Tags.FromACKTags` | pkg/resource/global_network/tags.go:61-78 | the slice spells out the map in key order, then the rest; all its tags are new and distinct; the caller's map keeps exactly the keys not in the key order |
| `Tags.IgnoreSystemTags` | pkg/resource/global_network/tags.go:85-92 | deleting while iterating, in any order, removes precisely the "aws:" and system keys and changes no other entry |
| `Tags.SyncAWSTags` | pkg/resource/global_network/tags.go:113-119 | the "aws:" entries of the source, and only they, are written into the target |
| `TagRules.FilteredIsUserTags` | pkg/resource/global_network/manager.go:330-340 | FilterSystemTags is the order-preserving filter of the normalized list |
| `TagRules.FilterIdempotent` | pkg/resource/global_network/manager.go:330-340 | filtering twice equals filtering once |
| `TagRules.FilterKeepsUserLists` | pkg/resource/global_network/manager.go:330-340 | filtering only normalizes exactly when the list has no system key |
| `TagRules.EnsuredAppends` | pkg/resource/global_network/manager.go:302-307 | EnsureTags normalizes the list, overrides nothing and appends exactly the default tags whose key is missing |
| `TagRules.EnsuredMap` | pkg/resource/global_network/manager.go:302-307 | the tags of the result are the merge, each key once |
| `TagRules.EnsureIdempotent` | pkg/resource/global_network/manager.go:292-309 | a second EnsureTags leaves the list exactly as it is |
| `TagRules.EnsureFilterRoundTrip` | pkg/resource/global_network/manager.go:292-340 | filtering after EnsureTags equals filtering before it iff every added default has a system key |
| `TagRules.ForeignDefaultStays` | pkg/resource/global_network/manager.go:292-340 | any one new default without a system key breaks that round trip, for every list and system tags |
| `TagRules.EnsureFilterReturnsUserList` | pkg/resource/global_network/manager.go:292-340 | for a list without system keys and defaults among the system tags the round trip returns the normalized list in its order |
| `TagRules.MirroredMap` | pkg/resource/global_network/manager.go:353-365 | mirroring writes the latest "aws:" entries over the desired map and changes no other |
| `TagRules.MirrorKeepsOthers` | pkg/resource/global_network/manager.go:353-365 | desired tags keep place and value unless they are "aws:" tags that the latest list has; only "aws:" tags are appended |
| `TagRules.MirrorIdempotent` | pkg/resource/global_network/manager.go:353-365 | a second mirrorAWSTags leaves the list exactly unchanged |
| `TagManager.EnsureTags` | pkg/resource/global_network/manager.go:292-309 | only the tags of the CR change, to the ensured list in new distinct tags |
| `TagManager.FilterSystemTags` | pkg/resource/global_network/manager.go:330-340 | only the tags of the CR change, to the filtered list; nothing happens without a CR |
| `TagManager.MirrorAWSTags` | pkg/resource/global_network/manager.go:353-365 | only the tags of the first CR change, to the mirrored list; nothing happens if either is missing |
| `SyncTags.CollectTags` | pkg/tags/sync.go:49-56 | the map from key to value pointer, the last duplicate winning; panics iff a slot or key is nil |
| `SyncTags.PointersAreTagMap` | pkg/tags/sync.go:49-56 | it has the keys of the tag map, and its values but for nil, which that map turns into "" |
| `SyncTags.PresentIsSafe` | pkg/tags/sync.go:49-72 | with all slots, keys and values present SyncTags dereferences no nil pointer |
| `SyncTags.Diff` | pkg/tags/sync.go:58-72 | the pairs to add are those that are missing or different; the keys to delete are those no longer desired, each once; panics iff a shared key has a nil value, in whatever order |
| `SyncTags.PlanMaps` | pkg/tags/sync.go:58-77 | the diff and the log loop together panic iff a desired value or an existing one whose key is desired is nil |
| `SyncTags.AddTags` | pkg/tags/sync.go:107-134 | one TagResource with the whole map in some order; its error is the call's |
| `SyncTags.RemoveTags` | pkg/tags/sync.go:137-155 | one UntagResource with the given keys; its error is the call's |
| `SyncTags.SyncTags` | pkg/tags/sync.go:37-104 | panics iff the tags are not safe, and then has sent nothing; else what it sends is one attempt of the protocol on the maps of the two slices, the backend's tags change as that attempt says, and its error is that of the last request |
| `SyncProtocol.RequestRepairs` | pkg/tags/sync.go:58-101 | a successful request empties its half of the diff and leaves the other half as it is; no desired key is lost |
| `SyncProtocol.DiffersIsDiff` | pkg/tags/sync.go:58-72 | additions and removals are disjoint and together name exactly the keys on which the maps disagree; they are empty iff the maps are equal |
| `SyncProtocol.AttemptProgressive` | pkg/tags/sync.go:58-101 | every request of an attempt sends one whole non-empty half of the diff against the backend it meets |
| `SyncProtocol.AttemptIsShort` | pkg/tags/sync.go:74-101 | at most two requests, all about the given ARN |
| `SyncProtocol.ProgressiveState` | pkg/tags/sync.go:58-101 | what is left of the diff after any sequence of such requests is decided by which kinds have succeeded, each at most once |
| `SyncProtocol.SyncRefinement` | pkg/tags/sync.go:37-104 | starting from a backend equal to the existing tags, it ends equal to the desired tags iff no error is returned; after an error it is as before, or has the desired tags added and nothing removed |
| `SyncRetry.RetryConvergence` | pkg/tags/sync.go:58-101 | over any sequence of attempts at most one TagResource and one UntagResource succeed, and the backend is as desired iff each non-empty half of the first diff succeeded once |
| `SyncRetry.DisagreementFalls` | pkg/tags/sync.go:58-101 | the keys on which backend and desired disagree become strictly fewer with each successful request and stay the same with each failed one |
| `SyncRetry.SuccessIsFinal` | pkg/tags/sync.go:58-104 | after an attempt that reported success the backend stays as desired |
| `SyncRetry.NothingToDo` | pkg/tags/sync.go:74-104 | equal tags cause no request and no error |
| `SyncRetry.DesiredKeysStay` | pkg/tags/sync.go:58-101 | a desired key present at the start is present at every intermediate point; an already equal one keeps its value and is named by no request |
| `SyncRetry.RequestsAreJustified` | pkg/tags/sync.go:61-72 | only desired pairs that are missing or different are sent, only existing keys that are not desired are removed |
| `SyncRetry.AWSTagsAreProtected` | pkg/resource/global_network/manager.go:342-365 | after mirrorAWSTags, SyncTags untags no "aws:" key and never writes one that the backend has |
| `TagCycle.CycleTarget` | pkg/resource/global_network/manager.go:292-365 | a cycle drives the backend to user tags, missing defaults and the backend's own "aws:" tags, and has reached that iff it did not fail |
| `TagCycle.TargetKeepsAWS` | pkg/resource/global_network/tags.go:94-119 | that target keeps every "aws:" tag of the backend, and is its own target |
| `TagCycle.CycleSettles` | test/e2e/tests/test_global_network.py:147-151 | after a successful cycle the next one sends nothing in whatever order tags are reported; filtering what was read gives the user's tags without system keys iff every added default has a system key, and a permutation of the whole normalized user list iff moreover no user tag has one |
| `Delta.NewResourceDelta` | pkg/resource/global_network/delta.go:33-58 | records the root path if one side is missing, else description and tags exactly when they differ, in that order |
| `Delta.DeltaAgreesWithSync` | pkg/resource/global_network/delta.go:51-55 | Spec.Tags is recorded iff SyncTags on the same lists sends a request |
| `Delta.DeltaIgnoresTagOrder` | pkg/resource/global_network/delta.go:51-55 | permuting tags with distinct keys changes neither delta |
| `Sdk.SetStatusDefaults` | pkg/resource/global_network/sdk.go:437-455 | region, partition and owner account keep their value if present and are the manager's own otherwise; ARN and all other fields stay; absent conditions become an empty list |
| `Sdk.DefaultsFillIn` | pkg/resource/global_network/sdk.go:437-455 | these field-by-field facts determine the result |
| `ManagerFactory.StatusNamesRequest` | pkg/resource/global_network/sdk.go:440-451 | a CR without metadata that the manager of a request finishes carries the account and region of that request |
| `Sdk.ReadNetwork` | pkg/resource/global_network/sdk.go:69-87 | asks nothing without an ID, else once for that ID; NotFound iff there is no ID, the list was empty or the first API error has code ResourceNotFoundException; any other error is returned as it is; unless the call otherwise failed, NotFound iff the backend has no such network |
| `Sdk.SdkFind` | pkg/resource/global_network/sdk.go:57-146 | the same answers, and on success a new CR with the data of the first network listed and status defaults; changes nothing that existed |
| `Sdk.NewCreateRequestPayload` | pkg/resource/global_network/sdk.go:265-290 | the request carries exactly the description and the tags of the CR |
| `Sdk.SdkCreate` | pkg/resource/global_network/sdk.go:177-261 | sends one CreateGlobalNetwork with the CR's description and tags and returns its error; on success one network more, with that data and an ID never used before, which the returned CR carries; on failure the networks are as before; a CR is returned iff no error is |
| `Sdk.PostCreate` | pkg/resource/global_network/sdk.go:252-259 | the deferred function: leaves a success alone, marks an error and then returns the CR with it |
| `Sdk.FinishCreate` | pkg/resource/global_network/sdk.go:198-260 | nothing after the call fails, so the deferred function never finds an error |
| `Sdk.SdkUpdate` | pkg/resource/global_network/sdk.go:294-380 | tags first; then one UpdateGlobalNetwork with the desired ID and description iff all tag requests succeeded and the delta names more than tags; the error is that of the last request; returns the desired CR itself or a new one with the response merged in |
| `Sdk.UpdateFails` | pkg/resource/global_network/sdk.go:305-329 | an update fails iff one of the requests it sent failed |
| `Sdk.SdkDelete` | pkg/resource/global_network/sdk.go:402-420 | sends one DeleteGlobalNetwork for the CR's ID and returns its error; on success exactly that network is gone; never returns a CR |
| `UpdateFixpoint.TagsReachDesired` | pkg/resource/global_network/sdk.go:305-314 | after a successful tag phase the backend's tags are the desired ones, whether or not the delta named them |
| `UpdateFixpoint.MergedCarries` | pkg/resource/global_network/sdk.go:202-246 | a CR with a reported network merged in has its ARN, ID, creation time, description, state (absent for "") and tags, and keeps what else it had |
| `UpdateFixpoint.UpdateReachesFixpoint` | pkg/resource/global_network/sdk.go:294-399 | after one successful update the CR that a read returns has an empty delta to the desired CR, in every reported tag order, iff the description was not to be removed |
| `UpdateFixpoint.RemovedDescriptionStays` | pkg/resource/global_network/sdk.go:391-393 | an update that removes a description, for which everything above holds and the delta stays |
| `UpdateFixpoint.UpdateThenFind` | pkg/resource/global_network/sdk.go:294-399 | the same about sdkUpdate followed by sdkFind on the heap |
| `UpdateRetry.UpdateRound` | pkg/resource/global_network/sdk.go:294-380 | sdkFind, newResourceDelta and sdkUpdate run one of the rounds below, sending exactly its requests, for every CR that is fit |
| `UpdateRetry.CreateLeavesFit` | pkg/resource/global_network/manager.go:120-137 | the CR that Create returns is fit and names the new network, which has the description and the tags of the given CR |
| `UpdateRetry.ReadLeavesFit` | pkg/resource/global_network/manager.go:97-115 | so is the CR that ReadOne returns, and so is the mirrored spec with the status that was read |
| `UpdateRetry.RoundIsSafe` | pkg/tags/sync.go:49-77 | what a read returns is always safe to compare with fit desired tags |
| `UpdateRetry.MirroredIsFit` | pkg/resource/global_network/manager.go:353-365 | the tags that EnsureTags and mirrorAWSTags leave in a CR are fit |
| `UpdateRetry.RoundSettles` | pkg/resource/global_network/sdk.go:294-399 | a read finds an empty delta iff the network is as desired, and then nothing is sent or changed; a successful round makes it so iff no description was to be removed |
| `UpdateRetry.RoundSends` | pkg/resource/global_network/sdk.go:315-325 | a round updates the description, once, iff its read and tag requests succeeded and the network has another description |
| `UpdateRetry.RoundFailsExactly` | pkg/resource/global_network/sdk.go:305-329 | a round fails iff one of its calls does |
| `UpdateRetry.NoFailureSettles` | pkg/resource/global_network/sdk.go:294-399 | a round in which no call fails leaves the network as desired iff no description was to be removed |
| `UpdateRetry.TagsConverge` | pkg/resource/global_network/sdk.go:305-314 | over any run in which any call may fail at most one TagResource and one UntagResource succeed, and the tags are as desired iff each non-empty half of the first diff succeeded once |
| `UpdateRetry.DisagreementNeverGrows` | pkg/resource/global_network/sdk.go:305-329 | in every round the differing keys only become fewer, strictly if a tag request succeeds, and an agreeing description stays so |
| `UpdateRetry.SuccessIsForever` | pkg/resource/global_network/sdk.go:294-399 | after the first successful round the network is as desired at every later point iff no description was to be removed, and then every later delta is empty and nothing is sent |
| `ConditionRules.StepStatus` | pkg/resource/global_network/sdk.go:482-527 | after one outcome Terminal is True iff it was a terminal error, and Recoverable iff it was another error, or a terminal one and Recoverable was True before |
| `ConditionRules.History` | pkg/resource/global_network/sdk.go:467-531 | after any run Terminal is True iff the latest outcome was a terminal error, Recoverable iff a non-terminal error has occurred since the last success; the initial list decides only what no outcome did |
| `ConditionRules.HistoryFromScratch` | pkg/resource/global_network/sdk.go:467-531 | starting without the two conditions the run alone decides, each occurs at most once and the list grows by at most two |
| `ConditionRules.RunExtends` | pkg/resource/global_network/sdk.go:467-531 | over any run conditions keep their places, those of other types their values; each missing managed condition is appended at most once, and a type that occurred at most once still does |
| `Errors.TerminalExactly` | pkg/resource/global_network/sdk.go:483 | an error is terminal iff its first API error has code ValidationException, a TerminalError is on its chain, or it is a bare secret error; for an SDK error only the first matters |
| `Errors.NotFoundExactly` | pkg/resource/global_network/sdk.go:81-84 | an error means a missing network iff its first API error has code ResourceNotFoundException |
| `ConditionRules.OnErrorClassifies` | pkg/resource/global_network/manager.go:394-414 | onError returns the terminal sentinel iff the error's chain makes it terminal as above, it is the sentinel itself, or a second Terminal condition was left True; otherwise the error itself |
| `ConditionRules.OnSDKError` | pkg/resource/global_network/manager.go:394-414 | for an SDK error Terminal is True, and the sentinel returned, by the code of its first API error; otherwise it is Recoverable and returned itself |
| `ConditionRules.StepWrites` | pkg/resource/global_network/sdk.go:484-527 | the conditions get status True and a message, or False and none; reason and time stay; a terminal error leaves Recoverable alone |
| `ConditionRules.MessageIsText` | pkg/resource/global_network/sdk.go:491-520 | which error's text each message is: the first API error's, or the error's own |
| `ConditionRules.ReportedExactly` | pkg/resource/global_network/sdk.go:528-531 | there is something to return after every error, and after a success iff one of the three conditions is there |
| `ConditionRules.DuplicateTerminalMisleads` | pkg/resource/global_network/manager.go:405-412 | a list with two Terminal conditions on which a recoverable error is reported as terminal |
| `Conditions.FindConditions` | pkg/resource/global_network/sdk.go:471-481 | finds the last condition of each of the three types |
| `Conditions.MarkTerminal` | pkg/resource/global_network/sdk.go:484-500 | the terminal branch: Terminal is True with the error's or the API error's text, added if it was missing; existing slots keep their objects |
| `Conditions.ClearTerminal` | pkg/resource/global_network/sdk.go:502-525 | the other branch: Terminal False without message, Recoverable set for an error and cleared for a success |
| `Conditions.UpdateConditions` | pkg/resource/global_network/sdk.go:459-532 | modifies nothing that existed; its result is a new CR with no Tag or Condition of the input, defaults filled in and conditions advanced one step; nil iff none of the three conditions is there |
| `Conditions.OnError` | pkg/resource/global_network/manager.go:394-414 | the updated CR with the error or the terminal sentinel; a nil resource gives the bare error |
| `Conditions.OnSuccess` | pkg/resource/global_network/manager.go:418-429 | the updated CR, or the given one itself if no condition is reported |
| `Manager.ReadOne` | pkg/resource/global_network/manager.go:97-115 | on success the input gets the backend's "aws:" tags and the result is what was found; on failure the input is unchanged; the ID is kept; NotFound means no such network, and comes for every missing one unless the call otherwise failed or a second Terminal condition hides it; panics iff the network is found and a tag slot is nil |
| `Manager.Create` | pkg/resource/global_network/manager.go:120-137 | sends one CreateGlobalNetwork with the CR's description and tags and fails iff it does; on success exactly one new network under a fresh ID, which the returned status carries; on failure networks and ID are as before and the returned copy records the error |
| `Manager.Update` | pkg/resource/global_network/manager.go:147-167 | sends what sdkUpdate sends and fails iff one of these requests does; the returned CR is the one sdkUpdate handed on, or after a failure the latest one, with the outcome recorded |
| `Manager.Delete` | pkg/resource/global_network/manager.go:172-190 | sends one DeleteGlobalNetwork for the CR's ID and fails iff it does; on success only the named network is gone and no CR is returned; on failure the networks are as before and a copy of the given CR with the error recorded is returned |
| `Lifecycle.NextKeepsInvariant` | pkg/resource/global_network/sdk.go:219-260 | every step that keeps the status keeps: a live network of this resource is the one its status names, and after NotFound there is none |
| `Lifecycle.NoSecondNetwork` | pkg/resource/global_network/sdk.go:247-260 | at no point of any run that keeps the status while a network is live are two networks of this resource live, and the live one is named by Status.GlobalNetworkID |
| `Lifecycle.LiveNetworkIsKept` | pkg/resource/global_network/sdk.go:247-260 | while a network of this resource is live no Create is attempted, and only Delete or others end it |
| `Lifecycle.MissingIsCreated` | pkg/resource/global_network/manager.go:106-114 | a clear read answers NotFound iff no network of that ID is live, and then every Create that succeeds leaves the status naming a live network |
| `Lifecycle.LostStatusStep` | pkg/resource/global_network/sdk.go:219-223 | with any other status in place of the live network's, ReadOne can answer NotFound iff it names no live network, and then every Create leaves two live networks |
| `Lifecycle.LostStatusDuplicates` | pkg/resource/global_network/sdk.go:247-251 | at every point of every run at which a network is live and its status is replaced, some run goes on to two live networks iff the new status is another one |
| `Lifecycle.RunToLive` | pkg/resource/global_network/sdk.go:177-261 | for every ID there is a run to such a point |
| `ManagerCache.KeyInjective` | pkg/resource/global_network/manager_factory.go:61 | without slashes in account and region, keys are equal iff account, region and role are; the role may contain slashes |
| `ManagerCache.KeyStandsForOne` | pkg/resource/global_network/manager_factory.go:58-61 | a request shares its key with no other account, region and role (without slashes in the former two) iff its own account and region contain no slash |
| `ManagerCache.SlashesCollide` | pkg/resource/global_network/manager_factory.go:61 | with a slash in the region two different requests share a key |
| `ManagerCache.RunKeepsInvariant` | pkg/resource/global_network/manager_factory.go:62-78 | in every reachable state nobody reads while somebody writes, managers were built for their key and carry its account and region, and a lock holder's view of the map is current |
| `ManagerCache.CacheSafety` | pkg/resource/global_network/manager_factory.go:61-78 | under every interleaving a returned manager, or a cached one that a call would find, serves the account, region and role that the call asked for |
| `ManagerCache.StoredKeysStay` | pkg/resource/global_network/manager_factory.go:77 | a stored key is never removed |
| `ManagerCache.LateCallsBuildNothing` | pkg/resource/global_network/manager_factory.go:62-68 | a call whose lookup follows the first store for its key builds no manager |
| `ManagerCache.StableForever` | pkg/resource/global_network/manager_factory.go:62-78 | once no missed call for a stored key is pending, its manager never changes and every later call returns it |
| `ManagerCache.LookupDecides` | pkg/resource/global_network/manager_factory.go:62-78 | a call that has looked builds a manager iff nothing was stored for its key before its lookup |
| `ManagerCache.OneManagerIffOneBuilt` | pkg/resource/global_network/manager_factory.go:62-78 | calls for a key that have all returned got one manager iff at most one of them built one |
| `ManagerCache.OneManagerIffOneEarly` | pkg/resource/global_network/manager_factory.go:58-78 | they got one manager iff no two of them looked before the first store for the key |
| `ManagerCache.NoDeadlock` | pkg/resource/global_network/manager_factory.go:62-71 | while a call has not returned, some call can take a step |
| `ManagerCache.RaceBuildsTwo` | pkg/resource/global_network/manager_factory.go:62-78 | a run in which two calls with the same arguments return different managers and the later store wins |
| `ManagerFactory.ResourceManagerFactory.ManagerFor` | pkg/resource/global_network/manager_factory.go:48-79 | called alone: returns and keeps the cached manager of the key, or caches a new one for the account and region; without slashes in them every manager ever returned serves the account and region asked for |
| `Api.CopyTagSlots` | apis/v1alpha1/zz_generated.deepcopy.go:765-775 | a new slice with equal tags and nil slots in the same places; all its tags and cells are new, one for each slot |
| `Api.GlobalNetwork.DeepCopyInto` | apis/v1alpha1/zz_generated.deepcopy.go:699-705 | the target gets an equal value out of new objects only |
| `Api.GlobalNetwork.DeepCopy` | apis/v1alpha1/zz_generated.deepcopy.go:708-715 | a new network with an equal value, everything reachable from it new, and no Tag or Condition in two slots |
| `NetworkList.GlobalNetworkList.DeepCopyInto` | apis/v1alpha1/zz_generated.deepcopy.go:726-738 | equal items, a nil slice for a nil slice; everything reachable from the copied items is new, and nothing is reachable from two of them |
| `NetworkList.CopyIsIndependent` | apis/v1alpha1/zz_generated.deepcopy.go:726-738 | later writes to the objects of one copied item change neither the original list nor another copied item; writes to anything else change no copied item |

## Left out

- AWS SDK networking, retries, metrics, logging and tracing: an API call is one atomic step with a result.
- The ACK runtime reconciler: only the calling assumptions above are used of it.
- Finalizers, ResolveReferences, LateInitialize, IsSynced, identifiers and ARNFromName: single branches or
  library calls.
- Deep copies of the other API types, the Spec and Status copies on their own, DeepCopyObject and the enum
  constants: the same pattern again.
- TypeMeta, ObjectMeta and metav1.Time are opaque values, and so are the two pointers of a condition
  (LastTransitionTime, Reason) that this code neither reads nor writes.
- The element of `GlobalNetworkList.Items` is an object of its own; that the items lie in one array, and
  slice capacity and append in place in general, are not modelled: appending makes a new array.
- Tag count limits and other validation by the backend, beyond "a call may fail".
- ManagerFactory.ResourceManagerFactory.ManagerFor: is sequential; interleavings of calls are in
  `ManagerCache`, on values.
- The preference of `sync.RWMutex` for waiting writers: a lock is granted to any thread that may have it,
  so fairness and starvation are not modelled.
- Nil managers and configuration objects, client construction, startup, Helm charts, CRDs, RBAC.
- The end-to-end tests: only their statement that the spec holds user tags alone is used.
