# The browser-control state machines of chromiumoxide, in Dafny

chromiumoxide drives a browser over the Chrome DevTools Protocol. A background handler reads messages from one socket,
hands them to the target they concern, and every target keeps its own picture of frames, execution contexts, network
requests and navigations. This project models those machines, and the two parsers that the repository also contains, and
proves what they promise over all inputs and all runs.

`dafny verify dfyconfig.toml` checks the whole project (Dafny 4.11).

## How the model is built

Each machine appears in up to three forms.

* A **class** with the fields of the source struct, whose methods update them in place, branch by branch as the source does
  (`FrameManagers`, `NetworkManagers`, `Handlers`, `CommandChains`, `Targets`, `EventListenerTables`, `Connections`,
  `PdlParsers`). Its loops and its recursion are the source's own: recursive removal, the eviction loop, the swap-remove
  sweeps, the send loop, the drain loop, the recursive poll.
* A **specification**: the same state as a value, and every operation as a function of it (`FrameManagerSpec`,
  `NetworkSpec`, ...). Each method ensures that the new state is the specification's.
* **Runs**: `Run(trace)` folds the specification over any sequence of events, and the theorems are lemmas about every
  trace (`FrameRuns`, `FrameQueue`, `FrameContexts`, `FrameLifecycle`, `FrameReplay`, `NetworkRuns`, `HandlerSenders`,
  `HandlerRuns`, `HandlerTargets`, `TargetRuns`, `ListenerRuns`). `EndToEnd` runs the handler together with the frame
  managers of all its targets. What a run should amount to is defined from the events alone wherever that is possible: a
  monitor of main-frame names, the redirects announced per request, the targets announced, the events sent to a
  subscription, the fixed program of an initialisation.
* **Histories**: what a machine knows and puts out, computed from its events alone by recursion on the trace, and proved
  equal to what the machine has and gives. `NetworkHistory` does this for all commands and all requests, `FrameHistory` for
  the tree and for what is known of each frame, `FrameAnswers` for every navigation from its start to its result,
  `HandlerHistory` for the tables and the answers, `HandlerAnswers` for the life of one navigation and of one command, and
  `PdlErrors` for which inputs the parser refuses and why. `TargetHistory`, `TargetManagers` and `TargetSends` tie what a
  target passes on to what its managers put out, by their histories, for the events that it hands to them.

`FrameTable`, `FrameOps` and `Navigation` hold the theory of the frame table; `Sweep` is the sweep shared by two machines;
`PdlGrouping` says what a protocol file means, `PdlAgreement` proves that the one-pass parser agrees on every accepted
input, `PdlContents` lists what the lines declare, and `PdlLosses` says when the parser keeps all of it. `VersionTexts` is
the grammar of browser versions. `Identifiers` has the machine words that count up and the tickets.

## Reading the model

* Channels, JSON and the socket are replaced by plain events and by logs of what was sent. A reply sender is a ticket, and
  what is sent on it is an entry of a log. That a sender cannot be duplicated is the only assumption on tickets.
* Time is a natural number. `FrameManager::poll` reads the clock a second time when a queued navigation starts
  (`src/handler/frame.rs:331`); that reading is a free value, a fresh one for every poll.
* The order in which a hash map or set yields its entries is left open: loops pick any element, and where the order can be
  seen (the commands of an isolated-world batch, the list of timed-out calls) theorems hold for every order.
* An `expect` that can fail is an outcome, `Panicked`, not an assumption. No event is excluded: a detach event may name the
  main frame. `FrameRuns.TableIsTreeInEveryRun` says exactly when the expectation at `src/handler/frame.rs:402` then fails.
* Identifiers are machine words and wrap (`src/conn.rs:59-63`, `src/handler/mod.rs:355-360`).
* The sources are right where their own comments are not: `EventListener::poll` calls every error of a channel that is not
  ready a disconnect (`src/listeners.rs:145-147`), but the sweep looks at the error again; and a redirect's own name is
  never parsed, because its description was taken before it is read (`chromiumoxide_pdl/src/pdl/parser.rs:261-271`).

## Properties that are false of the code, and their exact conditions

| what fails | witness | condition |
|---|---|---|
| the main frame is always tracked | `FrameRuns.DetachedMainFrameFails` | `FrameRuns.TableIsTreeInEveryRun` |
| every context is indexed | `FrameContexts.RenamedMainFrameStrandsItsContext` | `FrameContexts.IndexedExactlyWhen` |
| every network hop is reported | `NetworkRuns.RepeatedRequestLosesAHop` | `NetworkRuns.NoHopIsLostExactlyWhen` |
| announcement and pause commute | `NetworkRuns.RepeatedAnnouncementDoesNotCommute` | `NetworkRuns.SentAndPausedCommuteExactlyWhen` |
| a registration loses no event | `ListenerRuns.GoneReceiverLosesAnEvent` | `ListenerRuns.NothingIsLostExactlyWhen` |
| every submitted command is written | `ConnectionSpec.RefusedCommandIsLost` | `ConnectionSpec.NothingIsLostExactlyWhen` |
| a created target is known | `HandlerTargets.UnannouncedTargetFails` | `HandlerTargets.PanicsExactlyWhen` |
| every section of a protocol file is kept, under its element | `PdlLosses.EarlySectionIsTakenOver` | `PdlLosses.LayoutKeptExactlyWhen` |
| nothing that a protocol file declares is lost | `PdlLosses.SecondRedirectReplacesFirst` | `PdlLosses.NothingIsLostExactlyWhen` |
| printing and parsing a version is the identity | every revision below 1000000 comes back as a milestone | `BrowserVersions.RoundTripExactlyWhen` |

## Model

| member | source | states |
|---|---|---|
| FrameTable.ForestPruned | src/handler/frame.rs:516-531 | Removing any set of subtrees from a forest leaves a forest: links of what stays agree both ways, and no cycle appears |
| FrameTable.PrunedInSteps | src/handler/frame.rs:516-531 | Removing subtrees one after the other, in any order, removes what removing all of them at once removes; this is why the order of the child sets does not matter |
| FrameOps.PruneOneFrame | src/handler/frame.rs:516-531 | Taking a frame out of the table first, then removing the subtrees of its children, then unlinking it from its parent removes exactly the frame and all below it |
| FrameOps.BareOneFrame | src/handler/frame.rs:388-418 | Taking a frame out, removing what is below its children and putting it back without them removes exactly its proper descendants |
| FrameOps.BaredIsTree | src/handler/frame.rs:388-418 | A tree stays a tree when a tracked frame loses all frames below it |
| FrameOps.BaredRootIsAlone | src/handler/frame.rs:388-418 | When the frame that loses its descendants is the root, it is the only frame left |
| FrameOps.PrunedIsTree | src/handler/frame.rs:384-387 | A tree stays a tree below the same root when any other frame is removed with its subtree |
| FrameOps.PruneRoot | src/handler/frame.rs:384-387 | Removing the root empties the table |
| FrameOps.AttachedIsTree | src/handler/frame.rs:372-382 | A tree stays a tree when a frame is attached, whether its parent is tracked or not and whether it is already tracked or not |
| FrameOps.LinksDecide | src/handler/frame.rs:420-515 | Whether a table is a forest or a tree depends on ids, parents and children alone, so handlers that change other fields keep it |
| FrameOps.SubtreeShrinks | src/handler/frame.rs:260-269 | The subtree of a child is strictly smaller than that of its parent: the measure by which the recursive lifecycle check ends, although it removes nothing |
| FrameManagers.FrameManager.constructor | src/handler/frame.rs:202-212 | A new manager has no main frame, no frames and no navigation, and is well shaped |
| FrameManagers.FrameManager.RemoveFramesRecursively | src/handler/frame.rs:516-531 | Removes exactly the frame and everything below it, in any order of the child sets and although each parent leaves the map before its children are visited; unlinks it from its parent; leaves all other fields and links alone; returns the frame without its parent link |
| FrameManagers.FrameManager.RemoveEach | src/handler/frame.rs:519-521 | Removing child after child, in any order, removes exactly the subtrees of all of them |
| FrameManagers.FrameManager.OnFrameAttached | src/handler/frame.rs:372-382 | Adds a leaf below a tracked parent, linked both ways, and does nothing for a known frame or an unknown parent; keeps the table well shaped |
| FrameManagers.FrameManager.OnFrameDetached | src/handler/frame.rs:384-386 | Removes exactly the subtree of the detached frame; keeps the table well shaped |
| FrameManagers.FrameManager.OnFrameNavigated | src/handler/frame.rs:388-418 | Fails exactly when a frame without parent navigates and the main frame is not tracked; otherwise the frame loses all frames below it and takes name and url, and the main frame takes the new id with its worlds and lifecycle |
| FrameManagers.FrameManager.OnFrameTree | src/handler/frame.rs:359-370 | Attaches and navigates every frame of the tree, parents first; fails exactly when one of the navigations does; keeps the table well shaped |
| FrameManagers.FrameManager.OnFrameNavigatedWithinDocument | src/handler/frame.rs:420-427 | Takes the new url and marks the ongoing navigation as same-document exactly when it concerns this frame |
| FrameManagers.FrameManager.OnFrameStoppedLoading | src/handler/frame.rs:429-434 | Adds the two lifecycle events to a tracked frame and changes nothing else |
| FrameManagers.FrameManager.OnFrameStartedLoading | src/handler/frame.rs:436-441 | Clears lifecycle and request of a tracked frame and changes nothing else |
| FrameManagers.FrameManager.OnPageLifecycleEvent | src/handler/frame.rs:505-515 | Records the event on a tracked frame; an init event replaces the loader and all events before it |
| FrameManagers.FrameManager.OnHttpRequestFinished | src/handler/frame.rs:292-298 | Gives the request to the frame it names, if that is tracked |
| FrameManagers.FrameManager.OnExecutionContextCreated | src/handler/frame.rs:446-485 | Sets the main world of the named frame, or its second world if that is free, and indexes the context to the frame |
| FrameManagers.FrameManager.OnExecutionContextDestroyed | src/handler/frame.rs:487-494 | Takes the context out of the index and out of the world that holds it |
| FrameManagers.FrameManager.OnExecutionContextsCleared | src/handler/frame.rs:496-503 | Clears the worlds of every indexed frame, in any order, and the index |
| FrameManagers.FrameManager.EnsureIsolatedWorld | src/handler/frame.rs:533-558 | Gives no commands if the world is known; otherwise one for future documents and then exactly one for every tracked frame, in some order |
| FrameManagers.FrameManager.NavigateFrame | src/handler/frame.rs:346-352 | Queues the navigation last, with the loader its frame has now |
| FrameManagers.FrameManager.Goto | src/handler/frame.rs:339-343 | Queues a navigation of the main frame, and drops it if there is none |
| FrameManagers.FrameManager.Poll | src/handler/frame.rs:300-336 | Ends the ongoing navigation when it is late, its frame is gone or it is complete, and only then; otherwise starts the oldest queued one if none is ongoing |
| FrameManagerSpec.StepKeepsShape | src/handler/frame.rs:292-515 | Whatever event arrives in whatever state, the links of the table stay consistent: no frames, the tree below the main frame, or an empty table after the main frame was detached |
| FrameManagerSpec.TopNavigatedIsAlone | src/handler/frame.rs:388-418 | A top-level navigation that does not fail leaves the navigated frame as the only frame, without parent and children |
| FrameManagerSpec.OthersKeepLinks | src/handler/frame.rs:420-515 | All events but attach, detach, navigate and frame tree leave every link and the main frame alone, and cannot fail |
| FrameRuns.TableIsTreeInEveryRun | src/handler/frame.rs:359-418 | In every run the expectation on the main frame fails exactly when a parentless navigation follows a detach of the main frame; until such a detach the table is a tree rooted at the main frame, and after it the table is empty |
| FrameRuns.MainKeptNeverPanics | src/handler/frame.rs:395-404 | If no detach names the main frame of its time, nothing ever fails and the table is always a tree |
| FrameRuns.DetachedMainFrameFails | src/handler/frame.rs:395-404 | Navigate, detach the main frame, navigate again: the expectation fails |
| FrameReplay.ReplayLeavesExactlyTheTree | src/handler/frame.rs:359-418 | From every reachable state whose main frame was not detached, a frame tree with distinct ids and right parents leaves exactly that tree: same ids, links, names and urls, and nothing else |
| FrameReplay.GraftTree | src/handler/frame.rs:359-370 | Replaying a subtree below a tracked leaf adds exactly that subtree and changes nothing else |
| Navigation.LifecycleCoversSubtree | src/handler/frame.rs:260-269 | The recursive check holds exactly when every frame of the whole subtree has each expected event, or has no url and has DOMContentLoaded |
| Navigation.CompleteExactlyWhen | src/handler/frame.rs:271-289 | A navigation is complete exactly when its whole subtree is ready and the document was kept or the loader differs; which of the two success values it gives |
| FrameQueue.OutputsAlternateInEveryRun | src/handler/frame.rs:300-352 | In every run the outputs of poll are a prefix of request, result, request, result, in the order in which the navigations were accepted |
| FrameQueue.PollDrains | src/handler/target.rs:546-557 | The drain loop ends: every poll that puts something out lowers twice the queue plus the ongoing navigation; one that puts nothing out changes nothing, and a queue that is not empty then means one unfinished navigation within its deadline |
| FrameQueue.WatchersOriginate | src/handler/frame.rs:346-352 | In every run each queued or ongoing watcher was queued by a request of the run, with the loader its frame had then, and is same-document only if its frame navigated within the document since |
| FrameQueue.SuccessMeansLoaded | src/handler/frame.rs:271-336 | In every run a success result is that of the ongoing navigation: all frames of its subtree are loaded, and since it was queued its frame navigated within the document or has another loader than at that time |
| FrameContexts.DestroyedContextIsGone | src/handler/frame.rs:487-494 | With the index right, destroying a context leaves it in no world of any frame, and every other context where it was |
| FrameContexts.ClearedContextsAreGone | src/handler/frame.rs:496-503 | With the index right, clearing leaves no tracked frame with a context |
| FrameContexts.ContextCreatedExactlyWhen | src/handler/frame.rs:446-485 | A new context keeps the index right exactly when its unique id is held nowhere, or only by the world that it replaces, or by a world of the same frame while it is stored in neither |
| FrameContexts.NavigatedExactlyWhen | src/handler/frame.rs:388-418 | A navigation keeps the index right exactly when it does not rename a main frame that holds contexts |
| FrameContexts.IndexedInEveryRun | src/handler/frame.rs:446-503 | In every run in which the main frame keeps its id and unique ids are not reused, each world of each tracked frame is indexed to that frame |
| FrameContexts.TreeExactlyWhen | src/handler/frame.rs:359-370 | The index stays right after each navigation that a recorded frame tree consists of exactly when none of these renames a main frame that holds contexts |
| FrameContexts.IndexedExactlyWhen | src/handler/frame.rs:388-503 | The index is right after every prefix of a run, and within every recorded frame tree, exactly when each new context, each navigation and each frame tree of the run meets its condition |
| FrameContexts.RenamedMainFrameStrandsItsContext | src/handler/frame.rs:395-409 | After a renaming navigation, destroying a context misses the world that holds it |
| FrameLifecycle.LifecycleIsCurrent | src/handler/frame.rs:429-515 | In every run in which the main frame keeps its id, every lifecycle event recorded for a tracked frame did arrive for that frame, and neither an init event nor the start of loading came after it |
| FrameLifecycle.ConcernedReaches | src/handler/frame.rs:129-141 | Exactly which lifecycle events a frame has after an event that concerns lifecycles: those the event brings, and those it had and the event does not reset |
| FrameLifecycle.SuccessMeansReached | src/handler/frame.rs:260-289 | In such a run a success result is that of the ongoing navigation, and each frame of its subtree loaded, or has no url and loaded its content, after that frame last started over |
| FrameHistory.UnfoldedRuns | src/handler/frame.rs:359-370 | Every run reaches the same state when each recorded frame tree is replaced by the attachments and navigations of its frames, in order |
| FrameHistory.PathsInEveryRun | src/handler/frame.rs:372-418 | In every run, frame trees counted as their attachments and navigations, the tracked frames are those that have a path, computed from attachments, detachments and navigations alone; each has its parent and its depth from the path, and the main frame is the one that navigated last without a parent |
| FrameHistory.BelowInEveryRun | src/handler/frame.rs:260-269 | In every run a frame is in the subtree of another exactly when that one is on its path |
| FrameHistory.KnownInEveryRun | src/handler/frame.rs:388-515 | In every run, frame trees counted as their attachments and navigations, each tracked frame has what was reported since it is tracked: the loader of its last init event and none before, the lifecycle events since it last started over, the name and url it last navigated to, the request that ended last for it, and the contexts last created and not destroyed; a main frame under a new id takes over what was known of it, and each indexed context belongs to the frame it was created in |
| FrameHistory.WorldsInEveryRun | src/handler/frame.rs:446-485 | In every run the isolated worlds are those ensured and those that isolated contexts were created in |
| FrameAnswers.EverythingPutOut | src/handler/frame.rs:300-352 | In every run the outputs of all polls are what the events alone say: each navigation is requested in order with the request accepted, its frame named in it, and a deadline of its own timeout after its start; it ends late, with its frame gone, or with success of the right kind once all frames below are loaded and the loader is another than when it was queued or the document was kept, and not before |
| FrameAnswers.SuccessExactlyWhen | src/handler/frame.rs:271-336 | A poll reports the success of a navigation exactly when it is the ongoing one, is not late, its frame is tracked with all frames below it loaded, and since it was queued the document was kept or the loader, the last one reported by an init event, is another; all of this read off the events |
| NetworkManagers.NetworkManager.constructor | src/handler/network.rs:41-57 | A new manager tracks nothing and has interception off |
| NetworkManagers.NetworkManager.SetExtraHeaders | src/handler/network.rs:89-93 | Remembers the headers and queues one command with them |
| NetworkManagers.NetworkManager.SetRequestInterception | src/handler/network.rs:95-98 | Switches interception at most once, so that it agrees with the wish or the credentials |
| NetworkManagers.NetworkManager.SetCacheEnabled | src/handler/network.rs:100-103 | Queues one cache command for the new setting |
| NetworkManagers.NetworkManager.Authenticate | src/handler/network.rs:111-114 | Remembers the credentials and switches interception on if it was off |
| NetworkManagers.NetworkManager.UpdateProtocolRequestInterception | src/handler/network.rs:116-133 | Queues the cache command, computed from the old flag, and then one switch, only if the wanted state changed |
| NetworkManagers.NetworkManager.SetOfflineMode | src/handler/network.rs:173-190 | Queues one command, and none if the mode stays the same |
| NetworkManagers.NetworkManager.OnFetchRequestPaused | src/handler/network.rs:135-149 | Continues the request unless the user intercepts; pairs it with its announcement if that waits, else keeps it; requests stay under their own ids |
| NetworkManagers.NetworkManager.OnRequestWillBeSent | src/handler/network.rs:193-208 | With interception on and no data url, pairs the announcement with its pause or keeps it; otherwise starts the request at once |
| NetworkManagers.NetworkManager.OnFetchAuthRequired | src/handler/network.rs:151-171 | Cancels what was tried before, offers the credentials if there are any, else defaults |
| NetworkManagers.NetworkManager.OnRequestServedFromCache | src/handler/network.rs:210-214 | Marks a live request and changes nothing else |
| NetworkManagers.NetworkManager.OnResponseReceived | src/handler/network.rs:216-222 | Ends a live request as finished, with the response |
| NetworkManagers.NetworkManager.OnNetworkLoadingFinished | src/handler/network.rs:224-233 | Ends a live request as finished and allows its interception id to be challenged again |
| NetworkManagers.NetworkManager.OnNetworkLoadingFailed | src/handler/network.rs:235-245 | Ends a live request as failed, with the text, and allows its interception id to be challenged again |
| NetworkManagers.NetworkManager.OnRequest | src/handler/network.rs:247-271 | Starts a request; a redirect of a live one makes that one the last hop of the new chain |
| NetworkSpec.EmittedGrows | src/handler/network.rs:73-83 | The queue is first in, first out: every step appends what it puts out to all put out before, and a poll takes the oldest |
| NetworkRuns.PairedInEveryRun | src/handler/network.rs:135-149 | In every run the tables of unmatched announcements and unmatched pauses share no id, and every entry sits under its own id |
| NetworkRuns.SentAndPausedCommuteExactlyWhen | src/handler/network.rs:193-208 | With interception on, announcement and pause of one request reach the same state and outgoing queue in either order exactly when its id waits in neither table |
| NetworkRuns.RepeatedAnnouncementDoesNotCommute | src/handler/network.rs:193-208 | In a reachable state in which the announcement already waits, the two orders end with and without an announcement that waits |
| NetworkRuns.HopsAreConserved | src/handler/network.rs:247-279 | In every run the request events equal the hops of all terminal events, of all live requests and of those overwritten |
| NetworkRuns.NoHopIsLostExactlyWhen | src/handler/network.rs:247-271 | The request events equal the hops of all terminal events and live requests exactly in the runs in which every request that starts for a live id carries a redirect response |
| NetworkRuns.RepeatedRequestLosesAHop | src/handler/network.rs:247-271 | The same request announced twice without a redirect: two request events, and one hop that can still be reported |
| NetworkRuns.ChainsInEveryRun | src/handler/network.rs:247-279 | In every run each live request carries exactly the redirects announced for its id, in hop order; its chain is flat, has one request id, and each hop holds its redirect response |
| NetworkRuns.ReportedChainsAreAnnounced | src/handler/network.rs:216-245 | In every run the requests reported as finished or failed are, in order, those that steps ended, each under its id with exactly the redirects announced for that id until then, on a flat chain |
| NetworkRuns.SwitchesAlternateInEveryRun | src/handler/network.rs:116-133 | In every run Fetch.enable and Fetch.disable strictly alternate, starting with enable, and the last one agrees with interception wanted or credentials set |
| NetworkRuns.CredentialsGivenOnce | src/handler/network.rs:151-171 | Between two offers of credentials for one fetch id, a request with that interception id was redirected, finished or failed |
| NetworkRuns.AttemptsOnlyReleased | src/handler/network.rs:224-279 | A tried fetch id is forgotten by a step exactly when the step redirects, finishes or fails a request with that interception id |
| NetworkHistory.SettingsInEveryRun | src/handler/network.rs:89-191 | In every run headers, cache, interception, credentials and offline mode are those last set, and interception is on exactly when the user or the credentials ask for it |
| NetworkHistory.HalvesInEveryRun | src/handler/network.rs:135-149 | In every run an announcement or a pause waits for the other half exactly when the events leave it unmatched, and it is the last one that came for its id |
| NetworkHistory.RequestsInEveryRun | src/handler/network.rs:193-279 | In every run the live requests are those started and not ended since; each hop has the frame it was announced for, the pause it was paired with, the interception wish of its time, and the response that redirected it |
| NetworkHistory.OffersInEveryRun | src/handler/network.rs:151-279 | In every run credentials count as tried for a fetch id exactly when they were offered for it and no request with that interception id was redirected, finished or failed since |
| NetworkHistory.EverythingPutOut | src/handler/network.rs:69-279 | In every run the whole output, commands, starts and ends of requests, in order, is what the events alone say: each command by the settings of its time, each challenge cancelled if credentials were tried, answered if there are any, else left to the browser, and each ended request with frame, pause, chain and response or failure text |
| Handlers.Handler.constructor | src/handler/mod.rs:91-125 | A new handler waits for nothing; its first call, to discover targets, is already submitted |
| Handlers.Handler.SubmitCommand | src/handler/mod.rs:260-273 | The call gets the next id, and ids count up with wrap-around |
| Handlers.Handler.Submit | src/handler/mod.rs:260-336 | The call waits under its id since now; an entry overwritten there loses its sender |
| Handlers.Handler.CreatePage | src/handler/mod.rs:371-396 | A valid url is submitted with its sender, an invalid one refused at once |
| Handlers.Handler.OnTargetMessage | src/handler/mod.rs:339-353 | A navigation is registered under a new navigation id and given to the target; any other command is submitted |
| Handlers.Handler.OnNavigationResponse | src/handler/mod.rs:148-163 | The response answers the caller if the page has loaded, and is kept otherwise |
| Handlers.Handler.OnNavigationLifecycleCompleted | src/handler/mod.rs:165-193 | A completion answers the caller if the response has arrived, and is kept otherwise; an error answers at once |
| Handlers.Handler.OnResponse | src/handler/mod.rs:196-257 | The waiting call is taken out, and its sender answered, moved to a target or kept with the navigation; fails exactly when a created target is not known |
| Handlers.Handler.OnTargetCreated | src/handler/mod.rs:424-445 | The target is tracked and registered; one replaced discards its sender |
| Handlers.Handler.OnTargetDestroyed | src/handler/mod.rs:469-479 | The target is forgotten with the sender it holds |
| Handlers.Handler.EvictTimedOutCommands | src/handler/mod.rs:482-517 | Collects exactly the calls older than the timeout, in any order of the table, and evicts them one after the other |
| Handlers.Handler.SweepTargets | src/handler/mod.rs:579-611 | The backward swap-remove sweep visits each registered id once for every time it is registered, never indexes out of range, and keeps exactly the ids of tracked targets |
| HandlerSenders.SendersAreConserved | src/handler/mod.rs:147-522 | In every run every accepted sender is in exactly one place: a pending call, a navigation, a target, the answers, or what was discarded with a destroyed or replaced holder; so none is answered twice |
| HandlerSenders.StepConserves | src/handler/mod.rs:147-522 | Whatever step happens, each sender stays where it is or moves to exactly one other place |
| HandlerRuns.NextIdsAreFree | src/handler/mod.rs:260-366 | While ids have not wrapped, the next call id and the next navigation id are in no table, so no insertion overwrites an entry |
| HandlerRuns.ExplainedInEveryRun | src/handler/mod.rs:147-257 | In every run each pending call, stored navigation and answer goes back to the events that caused it |
| HandlerRuns.NavigationAnsweredOnlyWhenBothHalvesArrived | src/handler/mod.rs:148-193 | For every order of response, completion, error and eviction, who asked for a navigation gets at most one reply, and a response only if it is the response to that navigation's own call and the navigation was reported complete under the same id |
| HandlerRuns.NeverBothHalves | src/handler/mod.rs:695-720 | A stored navigation never holds both its response and its completion |
| HandlerRuns.EvictionIsExact | src/handler/mod.rs:482-517 | Eviction forgets exactly the calls older than the timeout and the navigations they belong to, and answers a timeout to exactly the senders behind them, for any order of the table |
| HandlerHistory.TablesInEveryRun | src/handler/mod.rs:148-517 | In every run the handler waits for exactly the calls and navigations that the events leave open, each with its sender, its time and the half that arrived, and knows the targets and the initiators that they leave |
| HandlerHistory.AnswersInEveryRun | src/handler/mod.rs:148-257 | In every run the answers given are exactly those that each event gives by what the events before it left open |
| HandlerHistory.DropsInEveryRun | src/handler/mod.rs:260-480 | In every run a sender is lost unanswered exactly when an event overwrote its call, its navigation or its place at a target, or removed that target |
| HandlerAnswers.NavigationIsAnswered | src/handler/mod.rs:148-257 | In every run whoever asked for a navigation is answered only with the response to the call that was submitted for it, once the page has loaded as well; with the error reported for its id; or with a timeout when an eviction named its call |
| HandlerAnswers.CommandIsAnswered | src/handler/mod.rs:196-257 | In every run whoever submitted a command is answered only with the response to the call submitted for that very command, or with a timeout when an eviction named that call |
| HandlerAnswers.NavigationGetsItsResponse | src/handler/mod.rs:148-193 | In every run in which the response to the own call of a navigation and its completion both arrive, in either order, and nothing in between fails, evicts or overwrites it, its sender gets that response |
| HandlerTargets.TargetsAreKnown | src/handler/mod.rs:424-445 | In every run the handler holds exactly the targets that were announced, one by one or in the answer to a waiting fetch, and not destroyed since |
| HandlerTargets.PanicsExactlyWhen | src/handler/mod.rs:196-257 | In every run the expectation on a created target fails exactly when a waiting create call is answered with a target that was never announced, or was destroyed since |
| HandlerTargets.UnannouncedTargetFails | src/handler/mod.rs:196-257 | A page is requested and answered with a target that was not announced: the expectation fails |
| EndToEnd.NavigationsAreAnsweredWhenLoaded | src/handler/mod.rs:148-193 | In every run of the handler together with the frame managers of all its targets, until navigation ids wrap: a page that asks for a navigation gets a response only if it is the response to the navigation's own call and, at some poll, the frame manager of the target that was asked had the whole subtree of the navigated frame loaded for that same navigation; and then it gets no other answer |
| EndToEnd.NobodyIsAnsweredTwice | src/handler/mod.rs:148-193 | In every run of the whole system, wrapped ids included, no sender is answered twice, whatever the answers |
| EndToEnd.HandlerRunsAlone | src/handler/mod.rs:570-611 | In every run of the system the handler is the handler that ran alone through the events it saw |
| EndToEnd.FramesRunAlone | src/handler/target.rs:546-557 | In every run of the system each frame manager is the manager that ran alone through the events since its target was created |
| EndToEnd.CompletionsAreReported | src/handler/mod.rs:593-601 | The handler sees a navigation complete only when the frame manager of some target reported it so |
| EndToEnd.RequestIsUnique | src/handler/mod.rs:339-366 | Until navigation ids wrap, an id belongs to one request |
| EndToEnd.LoadedWasAsked | src/handler/mod.rs:339-353 | A navigation that the frame manager of a target completed was asked for at that target |
| CommandChains.CommandChain.constructor | src/cmd.rs:109-118 | A new chain holds its commands in order and waits for nothing |
| CommandChains.CommandChain.PushBack | src/cmd.rs:120-123 | Queues a command last |
| CommandChains.CommandChain.ReceivedResponse | src/cmd.rs:127-134 | Stops waiting exactly when the response names the command issued last |
| CommandChains.CommandChain.Poll | src/cmd.rs:138-156 | Reports a late answer, waits for one in time, issues the oldest command, or is done |
| ChainSpec.CommandsTakeTurns | src/cmd.rs:93-157 | In every run of a chain, commands and the responses to them alternate, each response names the command right before it, and the commands issued, followed by those left, are those given, in order |
| ChainSpec.PollTells | src/cmd.rs:138-156 | A chain is done exactly when all its commands were issued and answered, and fails exactly when the last one was issued more than the timeout ago and is not answered |
| ChainSpec.IdentifiersTellApart | src/cmd.rs:127-136 | A response recognised by its method name answers one command only, except for the isolated worlds of different frames |
| Targets.Target.constructor | src/handler/target.rs:100-124 | A new target starts at attaching; its network manager has the configured cache and interception |
| Targets.Target.CreatePage | src/handler/target.rs:162-171 | The page exists once there is a session, and is never made twice |
| Targets.Target.OnResponse | src/handler/target.rs:208-226 | The chain of the current stage goes on if its command was answered; a frame tree goes to the frame manager, and fails exactly when that does |
| Targets.Target.OnAttachedToTarget | src/handler/target.rs:259-281 | Queues a resume for a paused child and a detach for a service worker, in that order |
| Targets.Target.OnInitializationFailed | src/handler/target.rs:308-319 | Tells the initiator about the timeout, closes, and asks the browser to close the target |
| Targets.Target.EnterNextStage | src/handler/target.rs:343-397 | The stage that follows a finished chain: the isolated-world batch if the world is missing, else the next chain; a batch lists every tracked frame exactly once |
| Targets.Target.AnswerInitiator | src/handler/target.rs:398-416 | The initiator gets the page only if the main frame is loaded and the page exists, and otherwise keeps waiting |
| Targets.Target.TellWaiters | src/handler/target.rs:420-426 | Once the main frame is loaded all who wait are told, last one first |
| Targets.Target.TakeNetworkEvents | src/handler/target.rs:525-544 | Takes all network events in order: commands are queued, ended requests go to the frame manager |
| Targets.Target.TakeFrameEvents | src/handler/target.rs:546-557 | Takes all frame events in order, and ends |
| Targets.Target.PassOn | src/handler/target.rs:419-562 | The rest of a poll passes on the oldest queued event, after one round if there was none; its loop turns at most twice |
| Targets.Target.Poll | src/handler/target.rs:322-563 | The recursive poll ends, and does what the specification of a poll says, for any order in which a batch lists the frames |
| TargetSpec.AdvanceKeepsFrames | src/handler/target.rs:322-417 | The initialisation part of a poll touches no frame, session or configuration |
| TargetRuns.InitialisationFollowsProgram | src/handler/target.rs:44-63 | In every run the initialisation follows one program: attach, the frame commands, at most one isolated-world batch, then network, page and optional emulation commands. What was sent is the program up to the current stage less what the chain still holds, and each command is sent only after the one before it was answered |
| TargetRuns.SentIsPrefixOfProgram | src/handler/target.rs:322-417 | What was sent is a prefix of the program, all of it once initialised, and a prefix followed by the close command if the target gave up |
| TargetRuns.WorldsForTrackedFrames | src/handler/frame.rs:533-558 | A batch sent by a poll has exactly one command for each frame tracked at that time and none for any other |
| TargetRuns.GivesUpExactlyWhen | src/handler/target.rs:308-319 | A poll gives up exactly when the last command was sent more than the timeout ago and not answered; then the initiator is told, if there is one, and the target closes |
| TargetRuns.ClosingIsNeverLeft | src/handler/target.rs:417 | A closing target stays closing whatever happens, and sends nothing more |
| TargetRuns.PageOnlyWhenReady | src/handler/target.rs:398-416 | In every run a page is given only when the whole program was sent and answered and the main frame is tracked and loaded, and only to the sender that waits for it |
| TargetRuns.NothingElseBeforeInitialised | src/handler/target.rs:419-562 | Events of the managers and of the page are passed on only after the whole program was sent and answered |
| TargetRuns.WaitersAreToldOnce | src/handler/target.rs:420-487 | No one who waits for the main frame is lost or told twice by a poll |
| TargetRuns.WaitersAreToldInEveryRun | src/handler/target.rs:420-487 | In every run, those who asked for the main frame, counted as often as they asked, are those who still wait and those who were told |
| TargetRuns.IdleMeans | src/handler/target.rs:419-562 | An initialised target that has nothing to report has empty queues, and queued navigations then wait for one that is neither late nor complete |
| TargetRuns.OrderUnused | src/handler/target.rs:343-357 | Once the isolated world is set up, no poll lists frames again |
| TargetSends.SentInEveryRun | src/handler/target.rs:322-417 | In every run the initialisation commands that polls give are those the program reaches, in order; the command to attach is for no session and each other one for the session set last |
| TargetSends.WaitsExactlyWhen | src/handler/target.rs:322-417 | The initialisation of a poll gives nothing and changes nothing exactly when the target is no page, is closing, has no session in its first stage with a chain, or waits for an answer that is not late |
| TargetHistory.FirstInFirstOut | src/handler/target.rs:420-562 | In every run what polls passed on, followed by what is queued, is all that attachments, the page, the network manager and the frame manager ever queued, in order |
| TargetHistory.SessionInEveryRun | src/handler/target.rs:126-128 | In every run the session is the one set last |
| TargetHistory.NobodyWaitsOnceLoaded | src/handler/target.rs:420-562 | After a poll that may pass something on, nobody waits for a main frame that is loaded |
| TargetHistory.StepTells | src/handler/target.rs:404-487 | A step answers whoever asked for the page exactly when it stops counting as the one to answer; those who wait are told the request of the loaded main frame; a page is made only with a session, on demand or for who asked |
| TargetManagers.NetworkCommandsArePassedOn | src/handler/target.rs:527-545 | In every run the network commands passed on and queued, followed by those the network manager holds, are all that the network manager put out, by its events alone, for the events the target handed to it, in order |
| TargetManagers.NavigationsArePassedOn | src/handler/target.rs:546-557 | In every run the navigations and results passed on and queued are all that the frame manager gave, by its events alone, for the events and ended requests the target handed to it, in order |
| TargetManagers.PageCommandsArePassedOn | src/handler/target.rs:431-437 | In every run the commands of the page that were passed on and queued are those read from its channel, in order |
| TargetManagers.MainFrameInEveryRun | src/handler/target.rs:420-431 | In every run whether the main frame counts as loaded, and with which request, follows from what was reported of the frames |
| EventListenerTables.EventListeners.constructor | src/listeners.rs:16-20 | No subscriptions at first |
| EventListenerTables.EventListeners.AddListener | src/listeners.rs:23-35 | A subscription is added last for its method, with an empty queue |
| EventListenerTables.EventListeners.StartSend | src/listeners.rs:38-45 | Every subscription to the method, custom or not, queues the event |
| EventListenerTables.EventListeners.TrySendCustom | src/listeners.rs:49-77 | The value is converted once, by the first custom subscription, and queued for the custom ones only; fails exactly when that conversion does |
| EventListenerTables.EventListeners.PollListener | src/listeners.rs:141-160 | Hands over queued events in order until the queue is empty or the channel stops it |
| EventListenerTables.EventListeners.SweepSubscriptions | src/listeners.rs:82-93 | The backward swap-remove sweep never indexes out of range and is the sweep of the specification |
| EventListenerTables.EventListeners.Poll | src/listeners.rs:81-95 | Sweeps the subscriptions of every method, in any order of methods |
| Sweep.SweepVisitsEachOnce | src/listeners.rs:82-93 | A swap-remove sweep from the back ends with what all elements leave behind, each visited exactly once |
| ListenersSpec.DrainKeepsOrder | src/listeners.rs:141-160 | Draining a subscription hands over a prefix of its queue in order; the only event it can lose is one that the channel refuses, and success means an empty queue |
| ListenersSpec.UnboundedNeverRejects | src/listeners.rs:141-160 | With an unbounded channel a subscription that is kept lost nothing |
| ListenersSpec.ConvertedExactlyWhen | src/listeners.rs:47-75 | A custom value becomes an event exactly when its method has a custom subscription, and then what the converter of the first one makes of it |
| ListenersSpec.PollKeepsExactly | src/listeners.rs:81-95 | A poll keeps exactly the subscriptions whose receivers are not gone, each drained as far as its own channel allowed |
| ListenerRuns.EveryEventAccountedFor | src/listeners.rs:23-95 | In every run, for every subscription held, delivered followed by queued events are a subsequence of those sent to it since registration, short of it by as many as were refused, and all of it precisely when none was refused |
| ListenerRuns.DeliveredThenQueuedIsSent | src/listeners.rs:23-95 | With unbounded channels, as the program uses, delivered followed by queued is always exactly what was sent |
| ListenerRuns.DroppedExactlyWhen | src/listeners.rs:141-161 | A poll drops a subscription exactly when its channel, having taken all events offered before, says at once or by refusing one more that its receiver is gone |
| ListenerRuns.HeldExactlyWhen | src/listeners.rs:81-95 | In every run, whatever the channels answer, a registration is still held exactly when no poll since it was made found its receiver gone; its queue then is its backlog |
| ListenerRuns.NothingIsLostExactlyWhen | src/listeners.rs:81-161 | In every run with unbounded channels, as the program uses, no event sent to a registration is lost exactly when no poll since it was made found its receiver gone |
| ListenerRuns.GoneReceiverLosesAnEvent | src/listeners.rs:81-95 | A subscription whose receiver is gone is swept away with an event that still waits in it |
| Connections.Connection.constructor | src/conn.rs:36-56 | Nothing is queued, in flight or unflushed at first |
| Connections.Connection.NextCallId | src/conn.rs:59-63 | Ids count up with wrap-around |
| Connections.Connection.SubmitCommand | src/conn.rs:67-83 | The command is queued last under the next id |
| Connections.Connection.StartSendNext | src/conn.rs:86-101 | Flushes if need be, then hands the oldest command to the sink unless one is in flight or unflushed; fails exactly when the sink refuses it |
| Connections.Connection.SendPending | src/conn.rs:110-128 | The send loop ends, whatever the sink answers, and makes only the steps of the specification |
| ConnectionSpec.CommandsGoOutInOrder | src/conn.rs:59-101 | In every run the commands handed to the sink, followed by those queued, are those submitted, in order, and ids are their positions modulo the machine word |
| ConnectionSpec.IdsAreDistinct | src/conn.rs:59-63 | No two of the first 2^64 commands share an id |
| ConnectionSpec.NothingIsLostExactlyWhen | src/conn.rs:86-101 | Accepted followed by queued commands are all those submitted exactly when the sink refused none |
| ConnectionSpec.RefusedCommandIsLost | src/conn.rs:86-101 | A command that the sink refuses is neither accepted nor queued any more |
| ConnectionSpec.OneUnflushedInEveryRun | src/conn.rs:86-128 | In every run at most the last written command is unflushed |
| ConnectionSpec.WritesOnlyAfterFlush | src/conn.rs:86-101 | No command is written while an earlier one is not flushed |
| ConnectionSpec.ProgressInEveryRun | src/conn.rs:86-128 | In every run which command is in flight, and whether what was written is to be flushed, follows from what the sink answered |
| Pdl.TypeDeterminesBase | chromiumoxide_pdl/src/pdl/mod.rs:97-114 | No two base names, arrays or not, stand for the same type |
| Pdl.TypeStandsFor | chromiumoxide_pdl/src/pdl/mod.rs:97-114 | Each of the eight names of the protocol stands for its own type, every other name for a type defined elsewhere, and an array for the array of what its base stands for |
| PdlErrors.RefusedExactlyWhen | chromiumoxide_pdl/src/pdl/parser.rs:34-396 | An input is refused exactly when one of its lines, or its end, is out of place by the lines before it, and then with the error for the first such place; all other inputs are accepted |
| PdlParsers.ParsePdl | chromiumoxide_pdl/src/pdl/parser.rs:23-339 | The pass over the lines gives the protocol, or the first error, that the specification of the parser gives |
| PdlParsers.PdlParser.CloseElement | chromiumoxide_pdl/src/pdl/parser.rs:59-66 | The open element, with its open section, goes to the last domain; a section without an element stays open |
| PdlParsers.PdlParser.OnElement | chromiumoxide_pdl/src/pdl/parser.rs:92-164 | Closes the element before, and opens a new one with the pending description |
| PdlParsers.PdlParser.OnParam | chromiumoxide_pdl/src/pdl/parser.rs:166-202 | A parameter joins the open section with the pending description, or is refused if there is none |
| PdlParsers.PdlParser.OnSection | chromiumoxide_pdl/src/pdl/parser.rs:204-219 | Attaches the section before to its element and opens a new one |
| PdlParsers.PdlParser.OnEnum | chromiumoxide_pdl/src/pdl/parser.rs:221-234 | Only a type without items becomes an enumeration |
| PdlParsers.PdlParser.OnRedirect | chromiumoxide_pdl/src/pdl/parser.rs:259-282 | Only a command takes a redirect |
| PdlParsers.PdlParser.OnLiteral | chromiumoxide_pdl/src/pdl/parser.rs:284-324 | A literal joins the last enumeration parameter or the enumeration of the open type, or is refused |
| PdlGrouping.GroupsCut | chromiumoxide_pdl/src/pdl/parser.rs:34-326 | Grouping lines by what starts a group neither loses nor reorders any from the first start on |
| PdlGrouping.GroupsHaveOneStart | chromiumoxide_pdl/src/pdl/parser.rs:34-326 | No group holds a second start |
| PdlAgreement.AddMemberAgrees | chromiumoxide_pdl/src/pdl/parser.rs:354-396 | Attaching the open section to an element gives the element with all its sections so far |
| PdlAgreement.RunAgrees | chromiumoxide_pdl/src/pdl/parser.rs:34-326 | After any accepted prefix the parser holds the grouped lines, except for the open element and section, whose parts it holds apart |
| PdlAgreement.HeldLineAgrees | chromiumoxide_pdl/src/pdl/parser.rs:166-219 | A section that comes before every element of its domain is held, with its parameters and literals, through any lines that open no element |
| PdlAgreement.ParserGroups | chromiumoxide_pdl/src/pdl/parser.rs:34-338 | On every accepted input the one-pass parser builds the lines grouped by domain, element, section and parameter, in order, each description with the next item that takes one; of several sections of one kind the last counts, and a section before the first element is taken over by the next element |
| PdlLosses.SameKindExactlyWhen | chromiumoxide_pdl/src/pdl/parser.rs:354-379 | What an element is built with of one kind is all that its lines declare exactly when no section with parameters is replaced and an early one is replaced itself or declares nothing |
| PdlLosses.LayoutKeptExactlyWhen | chromiumoxide_pdl/src/pdl/parser.rs:354-396 | On every accepted input the built protocol has the elements, sections and parameters as the lines declare them exactly when no section with parameters is replaced by another of its kind in its element and no section before the first element of its domain leaves anything in the element that takes it over |
| PdlContents.RedirectsSaidExactlyWhen | chromiumoxide_pdl/src/pdl/parser.rs:259-282 | The redirects of the built commands are all those of the redirect lines, in order, exactly when no element has two redirect lines |
| PdlContents.VersionSaidExactlyWhen | chromiumoxide_pdl/src/pdl/parser.rs:236-257 | Version heading and numbers are all those declared exactly when there is one version line, and at most one line for each number |
| PdlContents.NothingPendingExactlyWhen | chromiumoxide_pdl/src/pdl/parser.rs:38-52 | No comment is left over exactly when every comment is followed by a line that takes it |
| PdlLosses.NothingIsLostExactlyWhen | chromiumoxide_pdl/src/pdl/parser.rs:34-338 | On every accepted input the protocol says all that the lines declare, every redirect, version line, number and comment included, if and only if the layout is kept, none of these is repeated or left over, and no parameter comes before the first element of its domain |
| PdlLosses.PlacedOnceKeepsAll | chromiumoxide_pdl/src/pdl/parser.rs:34-396 | Nothing at all is lost on any accepted input in which every section header sits under an element, no element repeats a section or a redirect, version and numbers are declared once, and every comment is followed by a line that takes it |
| PdlLosses.PlacedOnceKeepsLayout | chromiumoxide_pdl/src/pdl/parser.rs:34-396 | On any accepted input in which every section header sits under an element and is not repeated there, the built protocol is that of grouping the lines by domain, element and section |
| PdlLosses.SecondRedirectReplacesFirst | chromiumoxide_pdl/src/pdl/parser.rs:259-282 | A command with two redirect lines is accepted and keeps the second only |
| PdlLosses.EarlySectionIsTakenOver | chromiumoxide_pdl/src/pdl/parser.rs:102-120 | A section header before the first element of its domain ends up in the next type, which has no section of its own |
| Decimals.RoundTrip | chromiumoxide_fetcher/src/version/revision.rs:49-68 | Every 32-bit number is read back from its decimal text |
| BrowserVersions.SplitJoined | chromiumoxide_fetcher/src/version/version.rs:83 | Splitting at a separator undoes joining with it |
| BrowserVersions.VersionRoundTrip | chromiumoxide_fetcher/src/version/version.rs:69-110 | Every three- or four-part version is read back from its text |
| BrowserVersions.SyntaxesAreDisjoint | chromiumoxide_fetcher/src/version/mod.rs:76-94 | No text has two of the four syntaxes, except that every revision is also a milestone; so only the order of these two matters |
| BrowserVersions.RoundTripExactlyWhen | chromiumoxide_fetcher/src/version/mod.rs:73-95 | Printing and parsing gives back kind and value for every channel and version, for a revision exactly from 1000000 on and for a milestone exactly below it; the others come back as each other |
| BrowserVersions.PrintingNormalises | chromiumoxide_fetcher/src/version/mod.rs:73-95 | Whatever text is accepted, what it was read as prints to a text that is read as the same again |
| BrowserVersions.PartsAreRead | chromiumoxide_fetcher/src/version/version.rs:69-110 | Major, minor, build and patch number are read in this order |
| VersionTexts.ReadExactlyWhen | chromiumoxide_fetcher/src/version/revision.rs:58-68 | A text is read as a number exactly when it is the decimal form of that number up to leading zeros and one plus sign |
| VersionTexts.VersionExactlyWhen | chromiumoxide_fetcher/src/version/version.rs:82-110 | A text is read as a version exactly when it is its three or four numbers with dots between them |
| VersionTexts.AcceptedExactlyWhen | chromiumoxide_fetcher/src/version/mod.rs:73-95 | A text is read as a browser version exactly when the grammar of the four syntaxes says so, revisions being the numbers from 1000000 on; any other text is refused as a whole |

## Left out

- `page.rs`, `element.rs`, `js.rs`, keyboard and mouse input, browser configuration and launch, downloads, `layout.rs`:
  command construction, I/O and floating-point geometry.
- The websocket, wakers, pinning and timers: what a poll finds ready is chosen by the environment.
- JSON payloads, and the generated protocol types: only the fields that the handlers read are kept.
- Frames, DOM worlds, HTTP requests and event subscriptions are values inside their tables. The source owns them by value in
  a map or a vector and never shares them, so no aliasing is lost; updating one is updating the table entry.
- The handler's connection is reduced to its counter of call ids; its send queue is modelled on its own in `Connections`.
- `EndToEnd` passes what a frame manager puts out to the handler at once. In the source it goes through the target's queue;
  that this queue loses and reorders nothing is `TargetManagers.NavigationsArePassedOn`.
- The runs of `HandlerRuns` and `HandlerHistory` have no sweep of the targets; the sweep, which removes the ids of targets
  that are gone from a list, is `Handlers.Handler.SweepTargets`.
- Sessions, browser contexts and event listeners of the handler: tables that decide nothing in the modelled code.
- The handler's targets are reduced to who asked for their page; a target itself is modelled in `Targets`. The answer that a
  target gives to that sender arrives at the handler as the event `TargetDone`.
- The questions that a page can ask a target about its frames (`src/handler/target.rs:439-473`, `492-517`): each is answered
  at once from the frame table and changes nothing.
- A target's dispatch of browser events (`src/handler/target.rs:228-305`) hands an event to the manager concerned; the
  class has no method of its own for it. The dispatch never passes on that a frame stopped loading
  (`src/handler/frame.rs:429-434` has no caller); runs in the model may contain that event, so they include all real ones.
- A target's event listeners: they are modelled on their own in `EventListenerTables`.
- The flag that marks types with circular dependencies (`chromiumoxide_pdl/src/pdl/dep.rs`): a fixed table over lower-cased
  names.
- The regular expressions of the PDL parser, which classify a line; the parser starts from classified lines. A version
  number that does not fit a machine word panics there and is not modelled. `resolve_pdl` reads files.
- Resolving a browser version against a download server.
