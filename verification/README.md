# CAID-tools, modelled and proved in Dafny

CAID-tools keeps track of dependencies between resources that live in different tools. This project
models the parts of it that carry invariants, in the form the code has, and proves what the design
relies on. `dafny verify dfyconfig.toml` checks all of it.

- **Notification path of the depi server.** `WaitQueue` is the blocking queue as a linked list of
  objects, critical section by critical section; `QueueProtocol` interleaves any number of pushers,
  closers and one consumer over those sections, with the lock and the one-slot channel as steps.
- **Blackboard of the depi server.** `Blackboard` is the class with its link maps and the loops of the
  server over it. `BlackboardSpec`, `BatchSpec` and `RemovalSpec` say what its operations do to the
  state, `GroupChanges` what a batch does to one group's map, and `BoardRuns` what clients can know of a
  board and what replaying the updates comes to. `StateRuns` puts these together: whole runs on objects
  and maps, and what a client that replays everything is left with; `RenameRuns` lets batches rename, too,
  and `BatchOrders` says when their order makes no difference. Resource objects are shared by groups
  and links and change in place; they have identities of their own in a heap of objects, so a rename
  through the group is a rename for every link.
- **Differ of WebGME models.** `ModelDiff` compares subtrees by guid, `ModelChanges` classifies and
  relocates tracked resources.
- **Webhook monitor.** `RetryQueue` is its queue with retries and timers, as a class and as a state
  machine.
- **json2gsn.** `GsnModel` and `GsnWalk` are the two passes over a flat list of nodes, `GsnForest` puts
  them together, `GsnLaws`, `GsnCover` and `GsnRelations` prove what the forest guarantees, `GsnText` and
  `GsnPrinter` print it, and `GsnReadBack`, `GsnRoundTrip`, `GsnPlain` and `Json2Gsn` read the texts back.
- **In-memory model of the blackboard graph.** `GraphModel` and `GraphApi` link, save, remove and rename
  on models; `GraphStore` is the store with its timers, as a class and as a state machine, and says when
  runs keep referential integrity; `GraphTimers` says when a timer does what was asked for.
- **Identity.** `ResourceIds`, `LinkPaths` with `DepiModel`, and `LoginToken`; `Text` splits and joins,
  `Refs`, `Counting` and `Sequences` hold what several parts share.

## What turned out not to hold

Where the code does less than its design promises, the model keeps the code as it is; a lemma names the
failure and another the exact condition.

- `clearBlackboard` leaves links visible that a removal batch has evicted, because they are deleted but
  no longer changed (`EvictedLinkOutlivesClear`, `SomeLinkOutlivesClear`, `RunThenClear`).
- The order of a Go map decides what a batch makes of a group's map exactly when two objects move to one
  url, or one moves to a url that the batch changes further (`OrdersAgreeExactly`). A batch is a
  simultaneous change exactly when, in addition, no new url is occupied
  (`OrdersSubstituteExactlyWithoutCollision`), and changes that meet a moved object name it alike
  (`SettlesExactly`). `StatesAgreeExactly` says when the order makes no difference to objects and links.
- The update for a renamed link gives the new url to both of its ends, even if the change is made in
  place (`ChangeInPlaceMisnamesLink`, `SentRenameIsRight`, `SentRenameIsShown`).
- The fast search for a moved node misses it when its base changes, and reports it as removed
  (`SomeBaseChanges`, `FastSearchAgreesWithFull`, `ChangeIsRight`). The comparison of nodes looks at the
  names of the old node only, so an attribute or a pointer that is added goes unnoticed
  (`AdditionsCompareAsSame`, `AddedAttributeGoesUnnoticed`, `AddedPointerGoesUnnoticed`).
- `linkResources` compares the source twice, so a link can repeat (`LinkingCanRepeat`,
  `SomeLinkRepeats`); saving and renaming a group can repeat one, too (`SavingCanRepeat`,
  `RenamingCanRepeat`), and a repeated link can outlive its ends (`RemovalKeepsIntegrity`).
- Deleting through the groups goes wrong when two tools share a group url (`DeletionNeedsAgreeingGroups`,
  `DeletionAgreesExactly`, `DeletionAlwaysAgreesExactly`), and removing a selection of which an entry is
  missing takes out the part before it (`MissingEntryBreaksIntegrity`, `SomeMissingEntry`, `StepKeepsInv`).
- What a timer puts in place drops what happened since it was set (`LaterLinkDropsEarlier`,
  `LateTimerRestoresLinks`); `LinksSurviveExactly` and `EveryTimerExactly` say when it does no harm.
- Renaming a group to a name that is in use cannot be undone (`RenamingBack`).
- A login token misreads a user name with a semicolon (`DecodeUndoesGenerate`), and two resources can
  share an id (`IdsCanClash`, `IdIsOwnExactly`).
- A `PopWait` that begins after `Close` waits until somebody closes again (`TrappedForever`,
  `WaitsForeverAfterClose`, `CallsComplete`).

## Model

| member | source | states |
|---|---|---|
| WaitQueue.Queue.Push | depi-impl/depi/go-impl/server/queue.go:34-60 | An item joins the end of the list unless the queue is closed; the pusher owes a token exactly when it found the queue empty with a waiting consumer. |
| WaitQueue.Queue.Pop | depi-impl/depi/go-impl/server/queue.go:62-81 | The empty error comes before the closed error; otherwise the first item leaves and the rest keep their order. |
| WaitQueue.Queue.Close | depi-impl/depi/go-impl/server/queue.go:83-92 | The queue is closed for good, and a waiting consumer is owed a token. |
| WaitQueue.Queue.EnterPopWait | depi-impl/depi/go-impl/server/queue.go:101-110 | The consumer has to wait exactly when the list is empty, and only then announces that it waits; whether the queue is closed plays no part. |
| WaitQueue.Queue.IsEmpty | depi-impl/depi/go-impl/server/queue.go:28-32 | Tells whether the linked list holds no item. |
| QueueProtocol.StepKeepsInv | depi-impl/depi/go-impl/server/queue.go:34-112 | Every step of a pusher, a closer or the consumer, lock and channel steps included, keeps the whole invariant. |
| QueueProtocol.EveryRunBalances | depi-impl/depi/go-impl/server/queue.go:34-112 | In every interleaving of any number of callers with one consumer: waiting flag plus senders plus tokens is one if the consumer is blocked and zero otherwise; and what was popped, followed by the list, is what was pushed while open. |
| QueueProtocol.SendsNeverBlock | depi-impl/depi/go-impl/server/queue.go:49-53 | No send on the channel ever blocks, not even the one that Close makes while it holds the lock. |
| QueueProtocol.NoLostWakeup | depi-impl/depi/go-impl/server/queue.go:46-54 | A consumer blocked on a queue that has items has exactly one wakeup on its way. |
| QueueProtocol.PopWaitReturnsNext | depi-impl/depi/go-impl/server/queue.go:101-112 | A consumer that gets through to Pop on an open queue finds the next item in arrival order, never the empty error. |
| QueueProtocol.ClosedStaysAsItIs | depi-impl/depi/go-impl/server/queue.go:71-92 | After Close nothing is pushed or popped any more, whatever runs. |
| QueueProtocol.NoDeadlock | depi-impl/depi/go-impl/server/queue.go:34-112 | Some call that has begun can go on exactly as long as there is one to finish, a consumer that rightly waits aside. |
| QueueProtocol.CallsComplete | depi-impl/depi/go-impl/server/queue.go:34-112 | Without new calls the rest of a run is bounded by a measure; at its end every call is complete, and a consumer that still waits faces an empty queue that is open or that was closed before it entered. |
| QueueProtocol.WaitsForeverAfterClose | depi-impl/depi/go-impl/server/queue.go:101-108 | A PopWait that starts to wait on a closed queue is never woken unless somebody closes again. |
| QueueProtocol.TrappedForever | depi-impl/depi/go-impl/server/queue.go:83-112 | Such a consumer is within reach of a new queue: close it and call PopWait; whatever runs after that without another close, it waits. |
| LinkPaths.CoversIsPartialOrder | depi-impl/depi/go-impl/model/model.go:434-450 | Being covered is reflexive, antisymmetric and transitive, for separators of any length. |
| LinkPaths.CoversIsSegmentPrefix | depi-impl/depi/go-impl/model/model.go:434-450 | For a separator of one character: covered exactly if the urls are equal or the link url without one trailing separator is a proper prefix segment by segment. |
| LinkPaths.SegmentPrefixIsTextPrefix | depi-impl/depi/go-impl/model/model.go:444-449 | A proper prefix by segments is the same as a text prefix that ends in the separator. |
| LinkPaths.SiblingIsNotCovered | depi-impl/depi/go-impl/model/model.go:434-450 | A resource that merely continues the name of the last segment is not covered. |
| DepiModel.ComparisonIsSegmentPrefix | depi-impl/depi/go-impl/model/model.go:590-606 | The comparison of a link with objects answers as that of its plain form and, for a separator of one character, says exactly whether its source is the resource or contains it segment by segment. |
| LoginToken.GenerateToken | depi-impl/depi/go-impl/server/server.go:190-205 | The buffers are filled so that the token is the encoding of iv and encrypted, padded user info. |
| LoginToken.PaddingIsMinimal | depi-impl/depi/go-impl/server/server.go:192-194 | The padded length is a multiple of 16, at least the text length and less than 16 above it. |
| LoginToken.TokenHoldsPaddedInfo | depi-impl/depi/go-impl/server/server.go:207-214 | Decoding reaches the padded user info, given that base64 (section 4 of RFC 4648) and CBC decryption (section 6.2 of NIST SP 800-38A) invert their encoders. |
| LoginToken.ParseUndoesFormat | depi-impl/depi/go-impl/server/server.go:218 | Parsing undoes printing for every 64-bit time stamp, and the digits hold no semicolon. |
| LoginToken.DecodeUndoesGenerate | depi-impl/depi/go-impl/server/server.go:190-223 | Decoding undoes generating for exactly the user names without a semicolon, for every time stamp. |
| ResourceIds.ParseUndoesFullId | depi-impl/blackboard-graph/src/utils.js:5-20 | Parsing undoes building a resource id for exactly the references with no marker in a part and no hash at the end of the first two parts. |
| ResourceIds.FullIdUndoesParse | depi-impl/blackboard-graph/src/utils.js:13-20 | Every id that parses is rebuilt from its parts. |
| ResourceIds.IdIsOwnExactly | depi-impl/blackboard-graph/src/utils.js:5-7 | A resource shares its id with no other exactly if no part holds the marker, the first two parts do not end in a hash and the last two do not start with one. |
| ResourceIds.SameIdIsSameResource | depi-impl/blackboard-graph/src/utils.js:69-70 | Among resources that parsing recovers, ids are equal exactly if the resources are the same. |
| ResourceIds.IdsCanClash | depi-impl/blackboard-graph/src/utils.js:5-7 | Two different resources with one id, one of them a resource that parsing recovers. |
| ResourceIds.GroupOfResourceId | depi-impl/blackboard-graph/src/utils.js:22-33 | The group id of the id of a resource that parsing recovers is the id of its group. |
| ResourceIds.GroupIdIsItsOwn | depi-impl/blackboard-graph/src/utils.js:22-26 | An id leads to itself exactly if it is the id of a group with no marker in a part and no hash at the end of the tool id. |
| BoardRuns.ItemIsExplained | depi-impl/depi/go-impl/server/blackboard.go:37-147 | The updates for one added, removed, linked or unlinked item take a watcher from the old board to the new one. |
| BoardRuns.RunKeepsInv | depi-impl/depi/go-impl/server/server.go:1000-1182 | Resources and links exist only where a group does; without batches the deleted keys stay among the changed ones. |
| BoardRuns.ClearLeavesEvictedLinks | depi-impl/depi/go-impl/server/server.go:1401-1455 | The updates of a clear leave a watcher with exactly the deleted links that are not changed, so its view is empty exactly if the deleted keys are among the changed keys. |
| StateRuns.RunsRefine | depi-impl/depi/go-impl/server/server.go:809-1182 | Every run of requests and removal batches on objects and maps, from the fresh blackboard on and in whatever order the maps are gone through, is one of BoardRuns, state by state and update by update. |
| StateRuns.WatcherSeesState | depi-impl/depi/go-impl/server/server.go:809-1182 | In every such run a watcher that replays all updates holds exactly the resources that are filed, with names and ids, and exactly the links that are changed and not deleted. |
| StateRuns.RunThenClear | depi-impl/depi/go-impl/server/server.go:1401-1455 | When a run ends in clearing, a watcher is left with exactly the deleted links that were not changed. |
| StateRuns.RequestsThenClear | depi-impl/depi/go-impl/server/server.go:1401-1455 | After a run of requests without batches, clearing leaves a watcher with nothing. |
| StateRuns.EvictedLinkOutlivesClear | depi-impl/depi/go-impl/server/server.go:1420-1436 | A run that clearing does not undo for a watcher: add two resources, link them, and report one as removed. |
| StateRuns.SomeLinkOutlivesClear | depi-impl/depi/go-impl/server/server.go:1401-1455 | There is such a run, with its updates, its states and a clear. |
| RenameRuns.WatcherHoldsResources | depi-impl/depi/go-impl/server/server.go:809-1182 | In every run, batches with renames of any kind included, a watcher that follows renames in the group whose version it heard last holds exactly the resources that are filed, with names and ids. |
| BlackboardSpec.AddingShows | depi-impl/depi/go-impl/server/blackboard.go:37-62 | Adding a resource makes its group if need be, never replaces a listed object, and reports whether it was new. |
| BlackboardSpec.RemovingShows | depi-impl/depi/go-impl/server/blackboard.go:64-74 | Removing takes exactly that resource and reports whether it was there. |
| BlackboardSpec.LinkingShows | depi-impl/depi/go-impl/server/blackboard.go:96-127 | Linking shows a link again that was deleted, ignores one that is visible, and files it under the key of its ends. |
| BlackboardSpec.UnlinkingShows | depi-impl/depi/go-impl/server/blackboard.go:129-147 | Unlinking marks the link both changed and deleted and tells watchers once. |
| BlackboardSpec.LookUpFirst | depi-impl/depi/go-impl/server/server.go:1084-1110 | Looking up all links of a request first comes to the same as looking each up when its turn comes. |
| BlackboardSpec.RequestsRefine | depi-impl/depi/go-impl/server/server.go:1000-1182 | On objects and maps, each of the four requests shows clients the board that BoardRuns gives it and sends exactly those updates. |
| BlackboardSpec.ClearingIsSeen | depi-impl/depi/go-impl/server/server.go:1408-1437 | The updates that clearing sends, through the objects of the links, are the ones that BoardRuns replays. |
| Blackboards.Blackboard.AddResource | depi-impl/depi/go-impl/server/blackboard.go:37-62 | The blackboard becomes the specified state; a new object is filed under its url only if none was. |
| Blackboards.Blackboard.RemoveResource | depi-impl/depi/go-impl/server/blackboard.go:64-74 | The blackboard becomes the specified state, the missing group and the missing resource included. |
| Blackboards.Blackboard.ExpandResource | depi-impl/depi/go-impl/server/blackboard.go:76-94 | Finds the group and the object exactly for the listed resources. |
| Blackboards.Blackboard.LinkResources | depi-impl/depi/go-impl/server/blackboard.go:96-127 | State and updates are those of linking one after the other. |
| Blackboards.Blackboard.UnlinkResources | depi-impl/depi/go-impl/server/blackboard.go:129-147 | State and updates are those of unlinking one after the other. |
| Blackboards.AddResourcesToBlackboard | depi-impl/depi/go-impl/server/server.go:1000-1044 | State and updates are those of adding one item after the other; only new resources are reported. |
| Blackboards.RemoveResourcesFromBlackboard | depi-impl/depi/go-impl/server/server.go:1046-1082 | State and updates are those of removing one item after the other. |
| Blackboards.LookupLinkResource | depi-impl/depi/go-impl/server/server.go:1084-1110 | Passes over exactly the links with an end that is not listed, and keeps the order of the rest. |
| Blackboards.LinkBlackboardResources | depi-impl/depi/go-impl/server/server.go:1112-1146 | The links found are linked, with their updates. |
| Blackboards.UnlinkBlackboardResources | depi-impl/depi/go-impl/server/server.go:1148-1182 | The links found are unlinked, with their updates. |
| Blackboards.EvictLinks | depi-impl/depi/go-impl/server/server.go:843-864 | In any order of the map: links at the resource leave the changed ones, join the deleted ones unless there already, and each is sent once. |
| Blackboards.ChangeResource | depi-impl/depi/go-impl/server/server.go:827-922 | One change of the batch: drop, rename or nothing, on the group map, the shared object and the links; each link that is touched is sent once, with the keys that the code gives it. |
| Blackboards.UpdateResourceGroup | depi-impl/depi/go-impl/server/server.go:809-926 | A listed group at another version goes through all changes in some order of the map; any other blackboard stays as it is and sends nothing. |
| Blackboards.ClearBlackboard | depi-impl/depi/go-impl/server/server.go:1401-1455 | A fresh empty blackboard, and for every group, once, each of its resources, each deleted link and each changed link, once. |
| GroupChanges.EveryOrderSubstitutes | depi-impl/depi/go-impl/server/server.go:827-921 | Without collisions every order of the map is one simultaneous substitution. |
| GroupChanges.OrdersSubstituteExactlyWithoutCollision | depi-impl/depi/go-impl/server/server.go:827-921 | Every order gives the simultaneous substitution exactly if no new url is occupied, shared, or changed further by the batch. |
| GroupChanges.OrdersAgreeExactly | depi-impl/depi/go-impl/server/server.go:827-921 | All orders give one map exactly if no two objects move to one url and none moves to a url that the batch changes further. |
| GroupChanges.SubstitutionIsUnique | depi-impl/depi/go-impl/server/server.go:909-911 | There is one simultaneous substitution at most, so all orders give the same map. |
| GroupChanges.RenamesKeepSize | depi-impl/depi/go-impl/server/server.go:909-911 | Renaming without collisions keeps the objects, their number, and each under one url. |
| BatchSpec.BatchKeepsSound | depi-impl/depi/go-impl/server/server.go:827-921 | For any batch in any order, collisions included: objects stay filed under their own urls, none twice, links keep their objects, and no other group changes. |
| BatchSpec.BatchOutcome | depi-impl/depi/go-impl/server/server.go:827-921 | A settled batch in any order: map, contents of the shared objects, evicted and remaining links are those of all changes made at once. |
| BatchSpec.EveryOrderGivesOneState | depi-impl/depi/go-impl/server/server.go:827-921 | Any two orders of a settled batch lead to one and the same state of groups, objects and links. |
| BatchSpec.SettlesExactly | depi-impl/depi/go-impl/server/server.go:827-921 | Every order has the outcome of all changes at once exactly if the batch has no collision and a change that meets a moved object gives it the same name and id. |
| BatchOrders.StatesAgreeExactly | depi-impl/depi/go-impl/server/server.go:827-921 | All orders lead to one state of groups, objects and links exactly if the map does not depend on the order and a change made in place where an object arrives changes nothing but what the arrival changes. |
| BatchSpec.LinksFollowTheirObjects | depi-impl/depi/go-impl/server/server.go:909-914 | A link that stays still ends at an object of the group, filed under the url that the link now shows. |
| RemovalSpec.RemovalsShow | depi-impl/depi/go-impl/server/server.go:834-864 | At every stage of a removal batch clients can know exactly the board less what is removed so far. |
| RemovalSpec.RemovalBatchIsAStep | depi-impl/depi/go-impl/server/server.go:809-864 | Whatever orders the maps are gone through in, a removal batch is a step of BoardRuns: the board is the one described there, and the updates take a watcher to it. |
| RemovalSpec.RemovalBatchMovesLinks | depi-impl/depi/go-impl/server/server.go:826-864 | After a removal batch in any order no changed link has a removed end, the links that had one are among the deleted ones, all others are where they were, and no key is added or lost. |
| RemovalSpec.SentRenameIsRight | depi-impl/depi/go-impl/server/server.go:865-904 | The update for a renamed link gives the new url to both ends, so it is the new key exactly if either end is the resource or has that url anyhow. |
| RemovalSpec.SentRenameIsShown | depi-impl/depi/go-impl/server/server.go:865-914 | On objects: it is the key that the link shows afterwards exactly if either end is the renamed object or has that url anyhow. |
| RemovalSpec.ChangeInPlaceMisnamesLink | webgme-depi/webgme-depi-components/bin/getResourceChanges.js:59-67 | A change in place, as the differ sends it, is enough for a link to be said to end at its own source. |
| ModelDiff.AttributesSame | webgme-depi/webgme-depi-components/bin/getResourceChanges.js:254-282 | Decides agreement on the attributes of the old node, the one-sided comparison of the code. |
| ModelDiff.PointersSame | webgme-depi/webgme-depi-components/bin/getResourceChanges.js:284-320 | Decides agreement of pointer targets by guid, for the names that the old node has. |
| ModelDiff.AddedAttributeGoesUnnoticed | webgme-depi/webgme-depi-components/bin/getResourceChanges.js:255-256 | Agreement is equality of the attributes exactly if the new node has no attribute name more. |
| ModelDiff.AddedPointerGoesUnnoticed | webgme-depi/webgme-depi-components/bin/getResourceChanges.js:285-286 | Where the comparison of pointers succeeds, all targets agree exactly if no pointer that the old node lacks leads anywhere. |
| ModelDiff.AdditionsCompareAsSame | webgme-depi/webgme-depi-components/bin/getResourceChanges.js:254-320 | Two nodes that compare as the same although one gained an attribute and a pointer. |
| ModelDiff.MapByGuid | webgme-depi/webgme-depi-components/bin/getResourceChanges.js:174 | The map by guid holds the last child with each guid. |
| ModelDiff.PairUp | webgme-depi/webgme-depi-components/bin/getResourceChanges.js:179-186 | Fails exactly if an old child has no partner of its guid, and otherwise pairs them in order. |
| ModelDiff.NodeAndChildrenSameRec | webgme-depi/webgme-depi-components/bin/getResourceChanges.js:159-195 | Decides the recursive comparison of two subtrees. |
| ModelDiff.SameRecIsIsomorphic | webgme-depi/webgme-depi-components/bin/getResourceChanges.js:159-195 | Subtrees compare as the same exactly if a guid-preserving matching of the children exists at every depth under which nodes agree, in any order of children. |
| ModelDiff.SameRecKeepsDescendants | webgme-depi/webgme-depi-components/bin/getResourceChanges.js:159-195 | Subtrees that compare as the same hold exactly the same guids. |
| ModelChanges.TraverseTree | webgme-depi/webgme-depi-components/bin/getResourceChanges.js:121-135 | The early-exit search finds the first node with the guid in preorder, and none exactly if the guid does not occur. |
| ModelChanges.GetMovedOrDeletedResourceChange | webgme-depi/webgme-depi-components/bin/getResourceChanges.js:77-138 | A renamed change for the node that the relocation finds, a removed change if it finds none. |
| ModelChanges.GetResourceChange | webgme-depi/webgme-depi-components/bin/getResourceChanges.js:38-75 | No change, modified, renamed or removed, as the url resolves in the new tree; an error exactly if it does not resolve in the old one. |
| ModelChanges.GetResourceChanges | webgme-depi/webgme-depi-components/bin/getResourceChanges.js:17-36 | The changes of all resources in order, or the first error. |
| ModelChanges.FastSearchAgreesWithFull | webgme-depi/webgme-depi-components/bin/getResourceChanges.js:86-137 | The search among the instances of the base node agrees with the search of the whole tree exactly if the node keeps its base. |
| ModelChanges.NewBaseIsTakenForRemoval | webgme-depi/webgme-depi-components/bin/getResourceChanges.js:86-101 | A node that moves and changes its base while the old base stays is reported as removed though its guid is there. |
| ModelChanges.SomeBaseChanges | webgme-depi/webgme-depi-components/bin/getResourceChanges.js:86-101 | Two well-formed models in which that happens to a tracked resource. |
| ModelChanges.ChangeIsRight | webgme-depi/webgme-depi-components/bin/getResourceChanges.js:38-138 | A resource that was tracked is tracked or rightly removed after its change exactly if its url still resolves to it or its node keeps its base. |
| ModelChanges.FailsExactlyOnLostResources | webgme-depi/webgme-depi-components/bin/getResourceChanges.js:38-46 | The whole comparison fails exactly if some resource does not resolve in the old tree. |
| ModelChanges.EveryResourceIsFollowed | webgme-depi/webgme-depi-components/bin/getResourceChanges.js:17-138 | After the returned list of changes every tracked resource resolves to the node with its guid, or is removed and its guid occurs nowhere, exactly under that condition. |
| RetryQueue.Monitor.ProcessNextRequest | webgme-depi/webgme-depi-components/bin/webgme_monitor.js:22-33 | Nothing while working or without requests; otherwise the first request goes to the handler with one attempt more. |
| RetryQueue.Monitor.OnHandlerDone | webgme-depi/webgme-depi-components/bin/webgme_monitor.js:34-47 | A failed request goes back to the front while it has attempts left, otherwise it is finished; a timer is set in any case. |
| RetryQueue.Monitor.OnPost | webgme-depi/webgme-depi-components/bin/webgme_monitor.js:129-134 | A request joins the end and starts at once if the monitor is idle. |
| RetryQueue.RunKeepsInv | webgme-depi/webgme-depi-components/bin/webgme_monitor.js:20-47 | Every run of posts, timers and handler results keeps the invariant. |
| RetryQueue.ArrivalOrderIsKept | webgme-depi/webgme-depi-components/bin/webgme_monitor.js:20-47 | Finished requests, the one in flight and the queue are always the requests in arrival order, across all retries. |
| RetryQueue.RetriesAreBounded | webgme-depi/webgme-depi-components/bin/webgme_monitor.js:34-43 | The handler was called as often as the attempts say; none exceeds max(1, maxAttempts), and a request given up has reached it. |
| RetryQueue.IdleQueueHasTimer | webgme-depi/webgme-depi-components/bin/webgme_monitor.js:23-46 | An idle monitor with requests has a timer pending. |
| RetryQueue.QueueDrains | webgme-depi/webgme-depi-components/bin/webgme_monitor.js:20-47 | Once arrivals stop, the rest of a run is bounded, and when nothing can happen any more every request is finished in arrival order. |
| GraphModel.RemoveEntriesByMutation | depi-impl/blackboard-graph/src/utils.js:82-98 | Each entry takes out the first match only; nothing else leaves and the order stays. |
| GraphModel.GetAdditionalLooseLinks | depi-impl/blackboard-graph/src/utils.js:100-115 | For each removed resource in turn, the links that touch it and are not selected. |
| GraphModel.LinksLeft | depi-impl/blackboard-graph/src/utils.js:82-115 | After a removal composed with its loose links, a selected link stays only by a surplus copy, and any other stays exactly if it touches no removed resource. |
| GraphModel.RemovalKeepsIntegrity | depi-impl/blackboard-graph/src/utils.js:82-115 | The links still end at listed resources exactly if no link repeats in the selection without its ends outlasting the removal. |
| GraphModel.RemovalIsExact | depi-impl/blackboard-graph/src/App.js:151-217 | Where no link repeats, exactly the selected links and the links at removed resources go, and referential integrity stays. |
| GraphModel.TakingKeepsIntegrity | depi-impl/blackboard-graph/src/utils.js:82-98 | Taking out any entries keeps the links ending at listed resources exactly if every link listed more often than taken out has ends listed more often than taken out. |
| GraphApi.LinkingIsExact | depi-impl/blackboard-graph/src/depi-api/DepiApi.js:229-249 | Exactly the new link and its missing ends are added, and the listed resources keep their place. |
| GraphApi.SavingCanRepeat | depi-impl/blackboard-graph/src/depi-api/DepiApi.js:291 | Saving keeps links unrepeated exactly if none is on both sides. |
| GraphApi.LinkingCanRepeat | depi-impl/blackboard-graph/src/depi-api/DepiApi.js:223-227 | The check for a known link compares the source twice, so links stay unrepeated exactly if the source links to itself already or the link is new. |
| GraphApi.SavingKeepsIntegrity | depi-impl/blackboard-graph/src/depi-api/DepiApi.js:268-291 | Every link of the saved model ends at a listed resource if that held on both sides. |
| GraphApi.SavingIsExact | depi-impl/blackboard-graph/src/depi-api/DepiApi.js:268-291 | The saved model lists exactly the resources and links of both sides, and knows the group url of every resource if the model did. |
| GraphApi.DeletionAgreesExactly | depi-impl/blackboard-graph/src/App.js:182-212 | Deleting through the groups takes out the entries that a removal does, exactly if the groups lead from every selected entry and every loose link to itself. |
| GraphApi.DeletionAlwaysAgreesExactly | depi-impl/blackboard-graph/src/App.js:182-212 | It does for every selection exactly if the first group with the url of a resource has its tool, for every resource. |
| GraphApi.DeletionNeedsAgreeingGroups | depi-impl/blackboard-graph/src/utils.js:52-65 | A model in which two tools share a group url and deleting a resource breaks referential integrity. |
| GraphApi.GroupRemovalKeepsIntegrity | depi-impl/blackboard-graph/src/depi-api/DepiApi.js:501-514 | Integrity stays when a group goes with its resources and links. |
| GraphApi.GroupRemovalIsExact | depi-impl/blackboard-graph/src/depi-api/DepiApi.js:501-514 | Exactly the resources of the group and the links that end in it go. |
| GraphApi.GroupRenameKeepsIntegrity | depi-impl/blackboard-graph/src/depi-api/DepiApi.js:516-535 | Integrity stays when a group gets a new tool and url, even those of another group. |
| GraphApi.RenamingCanRepeat | depi-impl/blackboard-graph/src/depi-api/DepiApi.js:516-535 | Renaming a group keeps links unrepeated exactly if no two different links differ only in ends in the groups of the old and the new name. |
| GraphApi.RenamingBack | depi-impl/blackboard-graph/src/depi-api/DepiApi.js:486-535 | Renaming a group and renaming it back restores all references, link ends and group names exactly if the name stayed the same or nothing had the new name. |
| GraphStore.DepiApi.LinkResources | depi-impl/blackboard-graph/src/depi-api/DepiApi.js:214-258 | Unless the check stops it, a timer is left that will put the blackboard of now, with the link and its missing ends, in place. |
| GraphStore.DepiApi.RunTimer | depi-impl/blackboard-graph/src/depi-api/DepiApi.js:251-257 | The next timer puts its blackboard in place of the present one. |
| GraphStore.DepiApi.SaveBlackboard | depi-impl/blackboard-graph/src/depi-api/DepiApi.js:260-306 | The blackboard moves into the model and is empty afterwards. |
| GraphStore.DepiApi.RemoveFromBlackboard | depi-impl/blackboard-graph/src/App.js:151-174 | With all entries present the selection and its loose links go; otherwise an error, once the entries before the first missing one are gone. |
| GraphStore.DepiApi.DeleteFromDepi | depi-impl/blackboard-graph/src/App.js:176-217 | An error exactly if an entry cannot be expanded, before any change; otherwise the expanded entries go. |
| GraphStore.DepiApi.EditResourceGroup | depi-impl/blackboard-graph/src/depi-api/DepiApi.js:477-544 | A removed or renamed group takes its resources and link ends along. |
| GraphStore.StepKeepsInv | depi-impl/blackboard-graph/src/depi-api/DepiApi.js:214-373 | A step keeps both models and those held by timers free of dangling ends and repeated links exactly if it is permitted: a condition on the lists before the step, given for each operation. |
| GraphStore.RunKeepsInv | depi-impl/blackboard-graph/src/depi-api/DepiApi.js:214-544 | A run, timers included, keeps them so at every stage exactly if each event is permitted when it comes. |
| GraphStore.BlackboardRemovalIsExact | depi-impl/blackboard-graph/src/App.js:151-174 | If none of a selection is missing, exactly the selected links and the links at selected resources leave the blackboard. |
| GraphStore.AgreedDeletionIsExact | depi-impl/blackboard-graph/src/App.js:176-217 | The same for the depi, if the groups lead from the selected entries and the loose links to themselves. |
| GraphStore.AgreedDeletionIsPermitted | depi-impl/blackboard-graph/src/App.js:176-217 | Such a deletion is permitted whenever both models are in order. |
| GraphStore.MissingEntryBreaksIntegrity | depi-impl/blackboard-graph/src/utils.js:82-98 | A removal with a missing entry in second place takes the resource before it and leaves its link. |
| GraphStore.SomeMissingEntry | depi-impl/blackboard-graph/src/App.js:151-174 | That happens in a run that starts with an empty blackboard. |
| GraphStore.SomeLinkRepeats | depi-impl/blackboard-graph/src/depi-api/DepiApi.js:223-258 | A run in which asking for a link twice lists it twice. |
| GraphTimers.LinksSurviveExactly | depi-impl/blackboard-graph/src/depi-api/DepiApi.js:214-258 | In a run of requests for new links, each asked for once, all of them are listed once the timers have run exactly if every request came when no timer was pending. |
| GraphTimers.EveryTimerExactly | depi-impl/blackboard-graph/src/depi-api/DepiApi.js:214-373 | In a run of any operations, each timer was set by an earlier request; it adds the link asked for and changes no other exactly if the blackboard lists the same links when it runs as when it was set, that link aside. |
| GraphTimers.TimerKeepsLinksExactly | depi-impl/blackboard-graph/src/depi-api/DepiApi.js:251-257 | A timer keeps every link of the present blackboard exactly if each was listed when it was set or is the link asked for. |
| GraphStore.LaterLinkDropsEarlier | depi-impl/blackboard-graph/src/depi-api/DepiApi.js:229-258 | A witness: of two links asked for before a timer runs, only the second is left. |
| GraphStore.LateTimerRestoresLinks | depi-impl/blackboard-graph/src/depi-api/DepiApi.js:251-291 | A witness: saving before the timer of a link has run brings the saved links back, so that saving again would repeat them. |
| GsnModel.AssignNodes | gsn-domain/json2gsn/src/json2gsn.ts:73-141 | Nodes, last node by path, namespaces in order of appearance with roots and type of the last root, and the errors node by node. |
| GsnModel.NoModelErrors | gsn-domain/json2gsn/src/json2gsn.ts:74-106 | The first pass finds no error exactly if every node has a valid id of two names or more and one of the six types. |
| GsnWalk.SortedSorts | gsn-domain/json2gsn/src/json2gsn.ts:158 | Sorting orders the relations and keeps every entry as often as it occurs. |
| GsnWalk.Traversal.TraverseRec | gsn-domain/json2gsn/src/json2gsn.ts:148-186 | Terminates for all relations, cycles included; children, references, errors and edges are those of the specified walk, in its order. |
| GsnForest.PopulateNamespaces | gsn-domain/json2gsn/src/json2gsn.ts:65-220 | The forest or the errors of the specified outcome, a loop first. |
| GsnLaws.WalkExactly | gsn-domain/json2gsn/src/json2gsn.ts:148-186 | The walk from a node takes exactly the steps that the nodes below it ask for. |
| GsnLaws.WholeWalkExactly | gsn-domain/json2gsn/src/json2gsn.ts:188-202 | The whole walk takes exactly the steps asked for by nodes that are roots or below one. |
| GsnLaws.ForestExactly | gsn-domain/json2gsn/src/json2gsn.ts:65-220 | There is a forest exactly if every node is sound, every namespace has a root, every relation of a reached node exists and no loop is found. |
| GsnLaws.LoopsAreAmongRelations | gsn-domain/json2gsn/src/json2gsn.ts:173 | Loops are searched for among exactly the relations of the nodes that are reached. |
| GsnLaws.ChildrenGoDown | gsn-domain/json2gsn/src/json2gsn.ts:176-178 | Every child has a path under its owner and is the last node with that path. |
| GsnLaws.ChildEdgesNeverCycle | gsn-domain/json2gsn/src/json2gsn.ts:176-178 | Child edges alone never make a cycle, whatever the relations. |
| GsnLaws.ForestHasNoCycle | gsn-domain/json2gsn/src/json2gsn.ts:204-219 | A returned forest has no cycle of two nodes or more through children and references, given that the search finds every strongly connected component of two. |
| GsnCover.EveryNodeOnce | gsn-domain/json2gsn/src/json2gsn.ts:148-202 | In a tidy model every node is entered exactly once and follows each of its relations exactly once, in order. |
| GsnCover.EnteredOnce | gsn-domain/json2gsn/src/json2gsn.ts:148-202 | In a tidy model every node has exactly one place in the forest. |
| GsnCover.ChildrenSitUnderParents | gsn-domain/json2gsn/src/json2gsn.ts:176-178 | In a tidy model every child sits under the node of its parent path. |
| GsnRelations.RelationsInForest | gsn-domain/json2gsn/src/json2gsn.ts:148-186 | In a tidy model the children of a node are the nodes at its relations that go down, and its references lead to the others with the types found there, in sorted order and as often as listed. |
| GsnRelations.EveryRelationCounted | gsn-domain/json2gsn/src/json2gsn.ts:156-186 | Every path occurs among the children and references of a node as often as its two lists have it. |
| GsnRelations.ChildrenAreAllBelow | gsn-domain/json2gsn/src/json2gsn.ts:176-178 | The children of a node are exactly the nodes with its path as parent path. |
| GsnPrinter.Printer.SerializeNodeRec | gsn-domain/json2gsn/src/json2gsn.ts:230-241 | The lines of a node and its tree join the text, and the indentation is what it was. |
| GsnPrinter.GenerateGsnText | gsn-domain/json2gsn/src/json2gsn.ts:223-251 | The text is the specified lines: each the indentation repeated by its depth, then its body. |
| GsnText.EntryReadsBack | gsn-domain/json2gsn/src/json2gsn.ts:228 | Depth and content of a line are read back from it. |
| GsnText.BodyReadsBack | gsn-domain/json2gsn/src/json2gsn.ts:231-239 | Every kind of line is read back from its text, dotted references as paths. |
| GsnReadBack.NodeReadsBack | gsn-domain/json2gsn/src/json2gsn.ts:230-241 | Joining the names on the enclosing lines gives every line the id of its node in the model. |
| GsnRoundTrip.TextReadsBack | gsn-domain/json2gsn/src/json2gsn.ts:223-251 | The text of a namespace reads back as its name and all its lines with the ids of their nodes. |
| Json2Gsn.NamespaceReadsBack | gsn-domain/json2gsn/src/json2gsn.ts:223-251 | That holds for every namespace of a tidy and sound model whose attributes hold no line break, for every indentation that does not start with a letter. |
| Json2Gsn.ContentsReadBack | gsn-domain/json2gsn/src/json2gsn.ts:254-268 | Whenever the compiler returns texts for a tidy model, each reads back as its namespace. |
| Json2Gsn.TextsSayEveryNodeOnce | gsn-domain/json2gsn/src/json2gsn.ts:148-268 | Reading all texts that the compiler returned for a tidy model, one finds of every node its own lines, once: one node line with its type and name, its attributes, and references to exactly its relations that do not go down, in sorted order. |
| Json2Gsn.ToGsn | gsn-domain/json2gsn/src/json2gsn.ts:254-268 | One text for every namespace, or all the errors. |

## Left out

- gRPC, generated protobuf code, HTTP, logging, audit files, configuration loading, the database behind
  branches, authorization and user interfaces: no part of this model.
- Sessions: updates are the lists that a request hands to them; which sessions watch, and queues that a
  new watch leaves behind, are not modelled.
- The maps from tools to urls to groups are one map from both, so the double loop over all groups of a
  blackboard in `UpdateResourceGroup` and its comparison of tool and url are a lookup.
- Objects: resource objects are entries of an explicit heap and groups and links name them by position;
  groups are values in the blackboard's map, as nothing else holds on to them but by tool and url.
- Updates carry the reference, name and id of a resource, and the key of a link as its objects show it;
  other fields of the messages are left out.
- Blackboards.ChangeResource: `RenameLink` updates are listed but not replayed, `RenameResource` updates are
  followed in `RenameRuns`, and link-map keys after a rename are stated as they are, because the code does not keep them consistent.
  Of the two ends in a `RenameLink`, names and ids are left out but for the new ones.
- StateRuns.WatcherSeesState: speaks of runs whose batches only remove resources, for the same reason;
  RenameRuns.WatcherHoldsResources covers all batches, and of the view the resources.
- RemovalSpec.RemovalBatchIsAStep: speaks of batches of removals on a blackboard whose link keys are
  current, which requests and removals keep and renames do not.
- QueueProtocol.EveryRunBalances: one consumer, as `waiting` is a single flag.
- Propagation of dirtiness, dependency search, branches and tags of the server.
- ModelDiff.NodeAndChildrenSameRec: the comparison of connections and sets is a parameter, as part of it
  calls what the file does not define; loading children and nodes is reading a tree.
- RetryQueue.QueueDrains: timers have no duration; the retry delay is not modelled, and maxAttempts is an
  integer.
- LoginToken.DecodeUndoesGenerate: base64 and the block cipher are parameters that invert each other;
  text that does not decode, or is no whole number of blocks, is a panic.
- GraphModel.RemoveEntriesByMutation: takes and returns the two lists that it splices.
- GraphStore.DepiApi.LinkResources: timers run in the order in which they were set; those that only
  report a model, other events and the messages to the editor are left out.
- ModelChanges.TraverseTree: the search loops over the children as a list. The code loops over the
  promise of them without awaiting it, which fails on every node that is not the one looked for.
- `SaveBlackboard` on the server, `parseEdgeId`, `getUpdatedSelection` and everything under `old`.
- GsnWalk.Traversal.TraverseRec: that sorting also reorders the input's own list, which sorting again
  does not change.
- GsnWalk.SortedSorts: strings are compared character by character, where JavaScript compares UTF-16
  code units; the orders differ for characters beyond the basic plane.
- GsnForest.PopulateNamespaces: messages, hints and details of errors, and the number of loops; Tarjan's
  algorithm is a parameter with the contract `FindsLoops`.
- GsnModel.AssignNodes: a type that happens to be the name of an inherited JavaScript property counts as
  another type, and is an error here.
- Json2Gsn.ToGsn: random uuids are a parameter. A label, unlike the other attributes, is printed without
  quotes; quotes within attributes are printed as they are.
