# The Score, verified

The Score is an in-memory observability daemon for coding sessions. This project models its
store and event log, the reconciler that infers sessions from the process table, the passing of
lineage through nested `score run` commands, and the inference of agents from command lines. It
proves what those parts promise together.

Check everything with `dafny verify dfyconfig.toml`.

## How the model is laid out

| file | what it models |
|---|---|
| `Model.dfy` | the records of `internal/model/model.go` |
| `Text.dfy`, `Sorting.dfy` | the pieces of Go's string, number, path and sort packages in use |
| `EventLog.dfy` | the bounded log: numbering, trimming, queries, a polling client |
| `StoreSpec.dfy` | the store as a value: operations, their events, replay, listing order, lineage |
| `Store.dfy` | the store as a class whose methods update the maps and the log |
| `Interleaving.dfy` | the store as a transition system: every critical section, send, receive and cancel is a step |
| `Inference.dfy` | which command line is which agent; session and edge identifiers |
| `Forest.dfy` | the parent relation of a process list and the roots that one linking pass assigns |
| `ReconcileSpec.dfy` | the store after a reconciliation, in closed form |
| `Handler.dfy` | the reconciler itself: four loops over the store class |
| `Reconciliation.dfy` | fixpoint, counts, roots, lineage, and start times over many scans |
| `RunTree.dfy` | nested `score run` commands and the lineage they produce |
| `StatusFilter.dfy` | the comma-separated status filter |

`Store` keeps two ghost fields: the full event history, of which the log holds a suffix, and the
trace of operations performed. Its invariant ties the maps and the history to the run of that
trace, so every theorem about serial runs holds of every reachable store.

## Main results

* **Subscriptions conserve events.** In every interleaving, each event number a subscriber is due
  is in exactly one of received, buffered, backlog, pending or dropped, once. Only live events are
  dropped, and only by a send that finds 128 buffered; the snapshot taken at Subscribe arrives
  whole and in order (`SubscriptionConservation`, `OnlyFullChannelsDrop`, `BacklogInOrder`).
* **Subscriptions deliver.** From every reachable state, reading delivers the buffer in order
  (`ReadingDelivers`); the backlog can still arrive exactly when the channel is open or nothing is
  left of it (`BacklogArrivesIff`); and on an open channel a client that keeps reading ends up with
  everything due to it that had not been dropped before (`EverythingArrives`).
* **Upserts** keep what the caller gave and fill in the rest, field by field, in exactly one way
  (`SessionDefaultsExact`, `DefaultsDecide`); listings hold exactly what the filter asks for, most
  urgent first (`ListingExact`, `RankExact`, `Store.ListSessions`).
* **Closing channels.** Sending on a closed channel is possible in two ways that the daemon's own
  calls reach: a client leaves while an upsert's event is being sent to it
  (`CancelDuringSendCrashes`), or before its backlog has been fed (`CancelBeforeFeedCrashes`).
  `CrashNextIff` says exactly when the next step can do it, `PatientRunsNeverCrash` that a
  cancel which waits for the channel's senders rules it out over whole runs, and
  `ImpatientCancelCanCrash` that waiting is needed.
* **Lifecycle events balance** against the maps in every interleaving (`LifecycleConservation`),
  and **replaying the history** rebuilds every session's status, attention and source, every
  workspace's path and every edge's text after every serial run (`ReplayRebuildsStore`,
  `StatusChangesChain`). `SerialRunsAreInterleavings` connects the two models.
* **A cursor client** gets everything in order exactly when at most the retention limit is appended
  between polls; otherwise it misses exactly the evicted prefix.
* **Reconciling** makes the inferred sessions and process edges a function of the process table, apart
  from kept start times, and leaves all other sessions and edges alone; workspace records for the
  directories found are overwritten (`Handler.Reconcile`, `SessionsExact`, `RecordsExact`,
  `WorkspacesExact`, `EdgeRecorded`, `OthersUntouched`). Listing by source then finds just the
  processes inferred to be that agent (`ReconcileThenList`). It is a fixpoint and then quiet (`ReconcileIsFixpoint`, `ReconciledIsSettled`), and
  keeps start times across scans that rebuild every record (`StartedAtSurvives`).
* **Roots.** Linking is one pass in list order, so a child listed before its parent takes the
  parent's identifier as its root even when the parent has a parent. `RootsExact` gives the root for
  every list with distinct pids, and `RootsAreTopIff` says exactly when all roots are topmost: when
  every parent that does not precede its child has no inferred parent itself.
* **Lineage of a process.** `lineage/get` never shows an inferred session outside the subtree, even
  when the parent links form a cycle (`LineageOnlyDescendants`). For acyclic lists it shows all of
  the subtree exactly when every proper descendant precedes its own children and, unless the process
  is top, its children that have children precede it (`LineageSubtreeIff`). A process that is not top shows just itself and its children exactly when no grandchild is rooted at it
  (`LineageChildrenIff`). All top processes show their whole trees exactly when late parents are top
  (`LineageExactIff`). The edge of a process is shown exactly when the process or its parent is
  (`LineageOfEdge`). So for a parent-first process list a top process shows its whole tree and any
  other itself and its children (`LineageParentFirst`); `ChildFirstLineage` and `LateInnerLineage` are
  two tables where the order of the list makes both fail.
* **Nested runs.** At every depth the root is the outermost run's and the parent is the enclosing
  run, and `Lineage` shows the whole tree once its writes have happened, in any order and mixed with
  any writes elsewhere (`LinksPropagate`, `AnyScheduleShowsTree`). A run is shown as running while
  its nested runs go on (`RunningWhileNested`), and afterwards says how and when its command ended
  (`FinalReportStays`, `FinishedListing`, `RunWholeTree`).
* **Inference** is characterised exactly (`InferenceExact`), its words by their characters
  (`WordsExact`), and its tables by what runs as what: `node -e claude` is an agent, `bash -c claude`
  is not (`RunnerFindsAgent`, `ShellIgnoresArguments`).

## Modelling choices

* Time is an integer, 0 is Go's zero time, and a clock reading is positive. Each call takes its
  clock reading as a parameter.
* Whether a path exists and which directory a process runs in are functions given to the model
  (`Host`). The reconciler's theorems are stated for any lookup that names only known agents
  (`Sound`); `EnvOfIsSound` shows that the inference of `agent_process.go` is one.
* Event type strings become constructors; any other type is `Custom`. The retention limit is any
  positive number, 5000 in the source.
* `sort.Slice` is used through its contract: some sorted permutation. Iterating over a map takes
  the keys in an arbitrary order.
* The content of `Meta` is reduced to the process object that inference attaches.

## Model

| member | source | states |
|---|---|---|
| EventLog.AppendRepresents | internal/store/store.go:424-430 | one append keeps the log equal to the last min(nextSeq, limit) events of a history numbered 1 to nextSeq |
| EventLog.LogInvariant | internal/store/store.go:419-430 | over every run of appends the log is the suffix of that length with contiguous numbers, each event intact |
| EventLog.QueryIsWindow | internal/store/store.go:373-386 | filtering by number and then trimming to the newest equals one closed-form slice of the full history |
| EventLog.PollingInOrder | internal/store/store.go:373-386 | a client that polls from its last number receives genuine events in increasing order, none twice |
| EventLog.PollingMissesOnlyEvicted | internal/store/store.go:373-430 | it receives event n if and only if n was still retained at the first poll after it |
| EventLog.PollingCompleteIff | internal/store/store.go:373-430 | it has received the whole history if and only if at most the limit was appended between polls |
| Sorting.Sort | internal/store/store.go:160-166 | a permutation of the input sorted under any strict weak order |
| StoreSpec.NormalizeCompletes | internal/store/store.go:44-71 | defaulting completes a record, leaves a complete record unchanged and keeps its identifier |
| StoreSpec.SessionDefaultsExact | internal/store/store.go:44-71 | each given field is kept; the blank ones become "session", unknown, the attention the status asks for, unknown, "native", the clock and the last activity; a blank root becomes the parent where there is one and else the session; nothing else changes |
| StoreSpec.DefaultsDecide | internal/store/store.go:44-71 | that relation admits one stored record per call |
| StoreSpec.AttentionExact | internal/store/store.go:446-457 | blocked asks for input, reviewable for review, failed and disconnected are errors, any other status asks for nothing |
| StoreSpec.WorkspaceDefaultsExact | internal/store/store.go:172-186 | the same for workspaces, with the identifier made from the path |
| StoreSpec.EdgeDefaultsExact | internal/store/store.go:229-240 | the same for edges, with the identifier made from relation and ends |
| StoreSpec.SpawnAnnounced | internal/store/store.go:241-255 | an edge write is logged as child-spawned exactly when the edge is new and spawned_by or delegated_by |
| StoreSpec.DerivedAttentionRanksByStatus | internal/store/store.go:446-483 | a session without an attention of its own is ranked by the urgency of its status |
| StoreSpec.RankExact | internal/store/store.go:468-483 | the rank of a session by the attention it has, and by its status when that asks for nothing |
| StoreSpec.ListingExact | internal/store/store.go:146-157 | a session is listed exactly when it has not ended or all are wanted, has a named status if any is named, has the source, and the query occurs in one of its places |
| StoreSpec.ApplyKeepsHonest | internal/store/store.go:73-116 | every operation keeps records keyed and complete and the history truthful |
| StoreSpec.ReplayRebuildsStore | internal/store/store.go:39-116 | after every serial run, folding the full history gives exactly each session's status, attention and source, each workspace's path and source and each edge's text and source, and every event's type and summary was right when logged |
| StoreSpec.StatusChangesChain | internal/store/store.go:83-96 | a status-changed event's old status is the status carried by the same session's previous event |
| StoreSpec.ReplayIsLastEvent | internal/store/store.go:78-96 | a session's replayed status, attention and source are those its last event carries, and it is present unless that event removed it |
| StoreSpec.SessionLessIsStrictWeakOrder | internal/store/store.go:160-166 | the listing comparator is a strict weak order |
| StoreSpec.ListingKeysUnique | internal/store/store.go:135-168 | any two listings of the same store show the same sequence of (attention rank, last activity) |
| Stores.Store.constructor | internal/store/store.go:28-37 | a new store is empty and valid |
| Stores.Store.LogEvent | internal/store/store.go:419-430 | the event is numbered, appended and the log trimmed; the history grows by it |
| Stores.Store.UpsertSession | internal/store/store.go:39-98 | the new state is the put operation applied to the old one, the stored record relates to the given one as SessionDefaults says, and the run of the trace continues |
| Stores.Store.RemoveSession | internal/store/store.go:100-116 | removes and logs exactly when the session exists |
| Stores.Store.Passes | internal/store/store.go:146-157 | the four early exits of the listing loop decide exactly the filter |
| Stores.Store.ListSessions | internal/store/store.go:135-168 | each matching session once, nothing else, by ascending attention rank and then by descending last activity |
| Stores.Store.UpsertWorkspace | internal/store/store.go:170-202 | the new state is the put operation applied to the old one, and the stored record relates to the given one as WorkspaceDefaults says |
| Stores.Store.UpsertEdge | internal/store/store.go:227-256 | the new state is the put operation applied to the old one, and the stored record relates to the given one as EdgeDefaults says |
| Stores.Store.ListEdges | internal/store/store.go:258-269 | every edge once, oldest observation first |
| Stores.Store.RemoveEdge | internal/store/store.go:271-287 | removes and logs exactly when the edge exists |
| Stores.Store.LineageOf | internal/store/store.go:289-330 | exactly the stored sessions with that id, root or parent, oldest first; exactly the stored edges with an end among them; exactly the stored workspaces they name; everything for a blank root |
| Stores.Store.ListEvents | internal/store/store.go:373-386 | the loop and trim return the closed-form slice of the full history |
| Interleaving.ActConserves | internal/store/store.go:402-442 | sends, feeds, receives and cancels neither lose nor copy a subscriber's events |
| Interleaving.NextKeepsSubs | internal/store/store.go:388-444 | every step keeps every subscriber's account equal to the slice of history it is due |
| Interleaving.SubscriptionConservation | internal/store/store.go:388-444 | in every interleaving each event due is in exactly one of a subscriber's five places once, and no other event is in any |
| Interleaving.BacklogInOrder | internal/store/store.go:394-406 | in every interleaving the snapshot events received and buffered, then those still to be fed, are the events (floor, S] complete and in order |
| Interleaving.OnlyFullChannelsDrop | internal/store/store.go:437-442 | only events appended after Subscribe are dropped, and only by a send that finds 128 buffered |
| Interleaving.ReadingDelivers | internal/api/handler.go:343-349 | from every reachable state, as many reads as there are buffered events deliver them all in order and change nothing else |
| Interleaving.SendDelivers | internal/store/store.go:437-442 | a captured event enters an open channel that has room, and is dropped by one holding 128 |
| Interleaving.BacklogArrives | internal/store/store.go:402-406 | from every reachable state with the channel open, the feeder and the reads bring the backlog to its end, and the snapshot is then received whole and in order |
| Interleaving.BacklogArrivesIff | internal/store/store.go:402-415 | some continuation empties the backlog without a crash if and only if the channel is open or the backlog is empty |
| Interleaving.EverythingArrives | internal/store/store.go:402-442 | from every reachable state with the channel open, with captured events sent in any order, received and previously dropped together become all events due |
| Interleaving.LogGrows | internal/store/store.go:419-430 | a step logs the in-flight event it publishes, or a custom event, and no other step logs anything |
| Interleaving.ClosedOnceThenQuiet | internal/store/store.go:408-416 | a channel is closed at most once, and afterwards its account is fixed and its pending sends only shrink |
| Interleaving.CrashNextIff | internal/store/store.go:402-442 | the next step can send on a closed channel if and only if a closed channel still has a pending sender or backlog |
| Interleaving.PatientRunsNeverCrash | internal/store/store.go:402-442 | if every cancel waits for its channel's senders, no run ever sends on a closed channel |
| Interleaving.ImpatientCancelCanCrash | internal/store/store.go:408-415 | after a patient run, cancelling makes such a send possible if and only if the channel had senders left |
| Interleaving.CancelDuringSendCrashes | internal/store/store.go:402-442 | the run in which a client subscribes, a session upsert appends its event and captures the channel, the client cancels, and the send panics |
| Interleaving.CancelBeforeFeedCrashes | internal/store/store.go:402-415 | the run in which a client subscribes to a store holding one event and cancels before the feeder sends it |
| Interleaving.LifecycleConservation | internal/store/store.go:73-116 | in every interleaving, logged plus in-flight starts minus removals is 1 or 0 as the session is in the map or not; likewise workspace discoveries |
| Interleaving.SpawnConservation | internal/store/store.go:241-285 | in every interleaving, for an edge only ever written as a spawn edge, child-spawned events minus edge-removed events is 1 or 0 as the edge is in the map or not |
| Interleaving.NextKeepsLifecycle | internal/store/store.go:187-200 | each step keeps that balance, for map writes and appends alike |
| Interleaving.SerialRunsAreInterleavings | internal/store/store.go:73-97 | one call at a time is the schedule in which every append follows its map write |
| Inference.InferenceExact | internal/runtime/agent_process.go:91-143 | a process is agent s if and only if its command names s, or else a trusted argv0 does, or else the first non-flag argument of a script launcher does |
| Inference.WordsExact | internal/runtime/agent_process.go:125-176 | a flag begins with a dash, a path has a slash of either kind, an application bundle has ".app/Contents/" somewhere in its arguments |
| Inference.RunnerFindsAgent | internal/runtime/agent_process.go:119-143 | a script runner with any flags and then an agent name is that agent, whatever follows; a script given by path has to exist |
| Inference.ShellIgnoresArguments | internal/runtime/agent_process.go:119-127 | bash, sh and zsh are never agents because of their arguments |
| Inference.LauncherUnderAgentName | internal/runtime/agent_process.go:100-112 | any launcher that runs under an agent name is that agent |
| Inference.OnlyKnownAgents | internal/runtime/agent_process.go:14-21 | nothing but the six agents is ever inferred |
| Inference.NormalizeIgnoresPath | internal/runtime/agent_process.go:145-155 | a command's directory does not change its normalized name |
| Inference.NormalizeIgnoresQuotes | internal/runtime/agent_process.go:145-150 | quotes round a name do not change its normalized name |
| Inference.BaseExact | internal/runtime/agent_process.go:150-150 | the last path element, trailing slashes aside; a dot for nothing and a slash for slashes alone |
| Inference.NormalizeLowers | internal/runtime/agent_process.go:145-155 | a normalized name is the base name with its ASCII capitals lowered and nothing else changed |
| Inference.LoweringDecides | internal/runtime/agent_process.go:14-43 | lowering only ASCII recognises the same agent and launcher names as any full Unicode lowering |
| Inference.AgentPathRecognised | internal/runtime/agent_process.go:91-98 | a process whose command is any path to an agent is that agent's |
| Inference.FieldsInvertJoin | internal/runtime/agent_process.go:157-163 | splitting the argument string gives back the space-joined arguments |
| Text.FieldsConcat | internal/runtime/agent_process.go:157-163 | any white space separates fields, for all strings |
| Text.SpacesExact | internal/runtime/agent_process.go:157-163 | the white space characters, one by one |
| Text.ItoaIsDecimal | internal/runtime/agent_process.go:192-194 | a sign where needed and then the decimal digits without leading zeros |
| Inference.LauncherIgnoresTail | internal/runtime/agent_process.go:128-142 | arguments after the first non-flag one never change the launcher's answer |
| Inference.SessionIdInjective | internal/runtime/agent_process.go:49-49 | the session identifier determines the agent and the pid, over all known agents and integers |
| Inference.EdgeIdInjective | internal/api/handler.go:288-288 | the process edge identifier determines child and parent |
| Inference.EnvOfIsSound | internal/runtime/agent_process.go:14-21 | inference names only known agents |
| Forest.RootIsAncestor | internal/api/handler.go:274-287 | in any list, even with cycles, the assigned root is an ancestor or the process itself |
| Forest.RootsAreTopIff | internal/api/handler.go:274-287 | all roots are topmost if and only if every parent not before its child is; parent-first lists qualify |
| Forest.TopSelectsSubtree | internal/store/store.go:294-298 | under that condition the one-pass test selects exactly the descendants of a top process |
| Forest.SelectedIsDescendant | internal/store/store.go:294-298 | in any list, cycles included, the one-pass test selects only descendants |
| Forest.SubtreeIff | internal/store/store.go:294-298 | for an acyclic list and any one process the test selects its whole subtree if and only if every proper descendant precedes its own children and, unless the process is top, its children that have children precede it |
| Forest.ChildrenOnlyIff | internal/store/store.go:294-298 | for an acyclic list a process that is not top selects just itself and its children if and only if no grandchild of it is rooted at it, that is, every grandchild either precedes its parent or has a parent after the process |
| Forest.LateParentsAcyclic | internal/api/handler.go:274-287 | if every late parent is top, the list has no cycle and every process that is not top selects just itself and its children |
| Forest.ChildFirstMissesGrandchild | internal/api/handler.go:274-287 | listed children first, a chain of three leaves its top process without its grandchild |
| Forest.LateInnerShowsGrandchild | internal/api/handler.go:274-287 | a process that is not top but listed after its child also selects a grandchild |
| Forest.SubtreesIff | internal/store/store.go:294-298 | for acyclic lists the test is exact for every top process if and only if the condition holds |
| Forest.EmbeddingKeepsOrder | internal/api/handler.go:255-260 | dropping processes from a list keeps it parent-first, keeps its late parents top and keeps it acyclic |
| ReconcileSpec.SessionsExact | internal/api/handler.go:239-304 | the inferred ids are exactly those of inferrable processes not owned natively, and the native sessions are unchanged |
| ReconcileSpec.OthersUntouched | internal/api/handler.go:300-320 | a scan neither changes, removes nor adds a session without the inferred mark or an edge outside the process namespace |
| ReconcileSpec.WorkspacesExact | internal/api/handler.go:262-272 | each workspace where a claimed process runs is described by the last one there, field by field; every other is as it was |
| ReconcileSpec.EdgesExact | internal/api/handler.go:274-309 | the process edges are exactly the claimed parent/child pairs, and every other edge is unchanged |
| ReconcileSpec.EdgeEndsLive | internal/api/handler.go:288-298 | both ends of a process edge are inferred sessions of the store, and its other fields are fixed |
| ReconcileSpec.LinkFrame | internal/api/handler.go:274-287 | linking touches the claimed records only |
| ReconcileSpec.FoundResolved | internal/api/handler.go:244-251 | looking up the working directory changes neither the identifier nor, if done beforehand, the session that is inferred |
| Handlers.Handler.PutInferred | internal/api/handler.go:261-272 | upserts the session and its workspace, quietly if both were known |
| Handlers.Handler.ObserveOne | internal/api/handler.go:240-272 | claims a process exactly when no native session owns its id, and keeps the recorded start time |
| Handlers.Handler.ObserveProcesses | internal/api/handler.go:234-273 | the first loop lays the records and workspaces of the claimed processes over the store |
| Handlers.Handler.LinkChild | internal/api/handler.go:280-287 | an inferred child gets the parent's id and the parent's current root, or the parent's id as root if the parent is missing; a missing or native child, and everything else, is left alone |
| Handlers.Handler.LinkProcess | internal/api/handler.go:275-298 | one child's links and its edge |
| Handlers.Handler.LinkProcesses | internal/api/handler.go:274-299 | the second loop links in list order and records exactly the edges written |
| Handlers.Handler.SweepSessions | internal/api/handler.go:300-304 | removes exactly the inferred sessions not seen, whatever order they are listed in |
| Handlers.Handler.SweepEdges | internal/api/handler.go:305-309 | removes exactly the process edges not seen |
| Handlers.Handler.Reconcile | internal/api/handler.go:229-311 | the three maps become the closed form; on a listing error nothing changes; a store that already agrees with the scan gets refresh events only |
| Reconciliation.ReconcileIsFixpoint | internal/api/handler.go:229-311 | repeating with the same processes, lookups and clock changes no map |
| Reconciliation.ReconciledIsSettled | internal/api/handler.go:229-311 | after a reconciliation the store agrees with every later scan of the same processes, whatever the clock |
| Reconciliation.ReconcileTwice | internal/api/handler.go:229-311 | the second of two reconciliations appends no started, status-changed, removed, discovered, child-spawned or edge-removed event |
| Reconciliation.InferredCount | internal/api/handler.go:258-261 | with distinct pids there are as many inferred sessions as inferrable processes not owned natively |
| Reconciliation.RootsExact | internal/api/handler.go:274-287 | a session's parent is its inferred parent; its root is itself without one, the parent's final root if the parent comes earlier, and else the parent |
| Reconciliation.RecordsExact | internal/api/handler.go:239-261 | every field of the session of a process no native session owns, from the process, its agent and its directory as listed or looked up, with the start time kept |
| Reconciliation.SourceFilterFinds | internal/runtime/agent_process.go:47-76 | a listing by source holds the session of such a process if and only if inference gives the process that source |
| Reconciliation.ReconcileThenList | internal/store/store.go:152-154 | the same of two real calls: reconcile, then list by source |
| Reconciliation.EdgesArePairs | internal/api/handler.go:288-298 | with distinct pids the process edges are exactly the pairs of a process and its parent in the list |
| Reconciliation.EdgeRecorded | internal/api/handler.go:288-298 | the edge of a process with a parent in the list, field by field |
| Reconciliation.EdgeCount | internal/api/handler.go:288-298 | with distinct pids there are as many process edges as claimed processes with a claimed parent |
| Reconciliation.LineageIsSelection | internal/store/store.go:294-298 | Lineage contains a process's session exactly when the test on positions selects it |
| Reconciliation.LineageOfEdge | internal/store/store.go:304-308 | Lineage contains the edge of a process exactly when the test selects the process or its parent |
| Reconciliation.LineageOfTop | internal/store/store.go:289-330 | the inferred part of a top process's lineage is the process and all its descendants |
| Reconciliation.ClaimedInherits | internal/api/handler.go:255-260 | a process list that is parent-first, has only top late parents or is acyclic passes that on to the claimed processes, whatever the store holds |
| Reconciliation.LineageOnlyDescendants | internal/store/store.go:289-330 | every inferred session of a lineage belongs to the subtree, cycles included |
| Reconciliation.LineageSubtreeIff | internal/store/store.go:289-330 | for acyclic lists the inferred part of any one lineage is the whole subtree if and only if the condition of Forest.SubtreeIff holds |
| Reconciliation.LineageChildrenIff | internal/store/store.go:289-330 | for acyclic lists the inferred part of the lineage of a process that is not top is itself and its children if and only if the condition of Forest.ChildrenOnlyIff holds |
| Reconciliation.LineageParentFirst | internal/store/store.go:289-330 | for a parent-first process list a top process shows its whole tree and any other itself and its children |
| Reconciliation.ChildFirstLineage | internal/store/store.go:289-330 | a table of three agent processes, children first, whose top lineage is not the whole tree, on any host |
| Reconciliation.LateInnerLineage | internal/store/store.go:289-330 | a table of four agent processes where the lineage of a process that is not top holds a grandchild, on any host |
| Reconciliation.LineageExactIff | internal/store/store.go:289-330 | for acyclic lists every top lineage is the whole tree if and only if late parents are top |
| Reconciliation.ReconcileThenLineage | internal/api/handler.go:229-311 | after a reconciliation the lineage query answers with a claimed process exactly when the test on positions selects it, and with its edge exactly when the test selects it or its parent |
| Reconciliation.InferredArePositions | internal/api/handler.go:258-261 | every inferred session is that of a claimed process |
| Reconciliation.PresenceFollowsScans | internal/api/handler.go:300-304 | an inferred session is present exactly when the last scan shows its process |
| Reconciliation.StartedAtSurvives | internal/api/handler.go:252-261 | StartedAt is the clock of the scan that began the current unbroken run of presence, LastActivityAt that of the last scan |
| Reconciliation.RunHasBeginning | internal/api/handler.go:252-261 | every inferred session that is present has such a scan |
| StatusFilter.ParseStatusFilter | internal/api/handler.go:379-391 | the loop computes the parse, and every element is a non-empty, trimmed, comma-free token |
| StatusFilter.ParseInvertsJoin | internal/api/handler.go:379-391 | parsing inverts joining any list of tokens with commas |
| StatusFilter.ParseConcat | internal/api/handler.go:379-391 | a comma separates: for all strings, both sides are parsed one after the other |
| StatusFilter.ParsePart | internal/api/handler.go:384-389 | between commas, a token with white space round it is that token, and white space alone is nothing |
| StatusFilter.ParseJoinParse | internal/api/handler.go:379-391 | parse, join, parse equals parse for every string |
| RunTree.LinksPropagate | cmd/score/main.go:378-407 | at every depth the root is the outermost run's root and the parent is the enclosing run |
| RunTree.CleanRoot | cmd/score/main.go:378-390 | without flags and in a clean environment the outermost run is its own root |
| RunTree.FlagsDecide | cmd/score/main.go:378-390 | a given flag decides, else the environment; a root falls back on the parent and then on the run itself |
| RunTree.ChildSees | cmd/score/main.go:401-407 | the command finds five variables with the values of its run, and the rest of the environment as it was |
| RunTree.OccursUnique | cmd/score/main.go:372-374 | with distinct ids an id names one run in one environment |
| RunTree.LineageShowsRunTree | cmd/score/main.go:417-421 | for any interleaving of the tree's writes with each other and with writes elsewhere, Lineage of the root contains every written session and every written edge of the tree |
| RunTree.AnyScheduleShowsTree | cmd/score/main.go:409-461 | once all of the tree's writes have happened, in any order and mixed with any writes elsewhere, Lineage of the root shows every run with its links and every edge of the tree |
| RunTree.ReportStart | cmd/score/main.go:410-421 | writes the session with its outcome, and once started the workspace and the edge to a parent |
| RunTree.RunObserved | cmd/score/main.go:348-465 | a run and the runs nested in it write exactly the operations of the tree |
| RunTree.TreeOpsComplete | cmd/score/main.go:409-465 | those operations write every session and edge of the tree and nothing else |
| RunTree.FinalReportStays | cmd/score/main.go:440-461 | in any schedule that does not touch a run's session after its last report, the session says completed, stopped, failed or start failed, with the command or the error, and its start, end and process |
| RunTree.FinishedListing | internal/store/store.go:446-483 | every finished run counts as ended in listings, and just the failed ones have the most urgent rank |
| RunTree.RunningReportStays | cmd/score/main.go:417-417 | until another write touches its session, a started run is shown as working, with its command and process |
| RunTree.RunningWhileNested | cmd/score/main.go:417-440 | while its nested runs go on, one after the other, a run is shown as running |
| RunTree.PlaceStays | cmd/score/main.go:418-418 | in any schedule where nobody else writes it, a started run's workspace is there, as a run of the tree in the same directory left it |
| RunTree.TreeEndsLast | cmd/score/main.go:409-461 | with distinct ids and one command after the other, each run's last report is the last write to its session, at every depth |
| RunTree.RunWholeTree | cmd/score/main.go:348-521 | after the tree has run, one command after the other, every session carries its links and says how its command ended, every started run has its workspace, and Lineage of the root shows all sessions and edges |
| RunTree.RunThenLineage | internal/store/store.go:289-330 | the lineage query on the root then answers with every run, every edge and every workspace of the tree |

## Left out

- Transport, connections, JSON decoding, method dispatch and error objects: plumbing around the calls modelled here.
- Daemon start, stop and status, signals, and the command's own process handling: operating system effects.
- Listing processes and looking up directories: external commands; their results are inputs.
- Command line printing and the `sources` map with its seeding: only easy members.
- The event's own `ObservedAt`, and `Agent`, `Capabilities`, `ArtifactIDs` and other `Meta` content: set once and never read by an operation modelled here, apart from `Agent.Adapter`.
- `ListWorkspaces`, `GetSession` and `GetWorkspace`: direct lookups.
- Windows: the `.exe` suffix and `filepath.Base` with backslashes. `ToLower` is modelled on ASCII, which decides every known name (`LoweringDecides`).
- The width of `nextSeq` and of the other integers: numbers are unbounded.
- Delivery order of live events: not promised by the code; they can overtake the backlog and each other. The order of the backlog itself is `BacklogInOrder`.
- Replay under overlapping operations: map write and append are separate critical sections, so replay is stated for serial runs and the event balance for all interleavings.
- Overlapping reconciliations: the code takes no lock across its phases; one call runs uninterrupted here.
- The public `AppendEvent` with one of the store's own event types: no caller in the repository does this, and the replay and balance theorems assume it.
- In `RunTree`, the command between two runs is taken to pass its environment on unchanged.
- Stores.Store.LogEvent: does not send to subscribers, because the class runs one call at a time; sending is `Publish` and `Send` of the transition system.
- Inference.NormalizeLowers: leaves letters outside ASCII as they are, because no known name contains one.
- RunTree.RunObserved: nested runs go one after the other; any other schedule is `AnyScheduleShowsTree`.
- RunTree.RunWholeTree: nested runs go one after the other; any other schedule is `AnyScheduleShowsTree`.
