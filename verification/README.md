# SonarLint for IntelliJ: backend synchronizer, VCS-changes action and server event notifier

This project models three parts of the SonarLint IntelliJ plugin in Dafny and
proves properties of them.

- **Backend synchronizer** (`BackendService`). It mirrors the IDE's project
  model into the analysis backend. Every host event is a pure transition:
  it takes the synchronizer state and returns the new state together with
  the ordered backend calls it emits. Host events are connection add, update
  and remove, start-up, project open, close, bind and unbind, module add,
  remove and unbind, the suggestion switch, and disposal. The state has
  three parts:
  - the `initialized` flag;
  - the module-id cache;
  - the counter that module ids are minted from (`name-counter`).
- **VCS-changes action** (`SonarAnalyzeVcsChangesAction`). The model covers:
  - the presentation decision (`update`);
  - the click decision and the submitted file set (`actionPerformed`);
  - the recursive file-collection filter;
  - the `whatAnalyzed` label.
- **Server event notifier** (`ServerEventHandler`). The model covers the
  event text and the notification title. It also covers the single-slot,
  most-recent-wins notification state: the previous notification expires
  before a new one is shown.

Modules, in dependency order:

| file | module | contents |
|---|---|---|
| wrappers.dfy | `Wrappers` | `Option`, for Kotlin/Java nullables |
| decimal.dfy | `Decimal` | decimal rendering of a counter, and its parser |
| module_ids.dfy | `ModuleIds` | minting `name-counter` ids, and reading the counter back |
| host.dfy | `Host` | IDE-side values: modules, projects, bindings, server connections |
| backend_api.dfy | `BackendApi` | backend DTOs, and the backend call log |
| backend_service.dfy | `BackendService` | the synchronizer's state and transitions |
| backend_scopes.dfy | `BackendScopes` | a reference reading of a call log as the backend's scope table |
| lifecycle.dfy | `Lifecycle` | properties across several transitions (round trips, scope tree) |
| file_collector.dfy | `FileCollector` | the abstract file tree, and the visitor's collection |
| vcs_changes_action.dfy | `VcsChangesAction` | `update`, `actionPerformed`, `whatAnalyzed` |
| server_event_handler.dfy | `ServerEventHandler` | event text, title, and the notification slot |

Modelling choices:

- **Connections.** The model follows the code, which gives a connection a
  host URL, a nullable organization key and a separate `isSonarCloud` flag.
  It does not use a two-variant connection type whose kind is the presence
  of an organization key. The conversion dereferences the organization key
  with `!!` (BackendService.kt:155). Converting a SonarCloud connection
  therefore requires an organization key (`Host.HasOrganizationWhenCloud`).
- **Module identity.** A module's object identity is its `ref` field. The
  module-id cache is a map keyed by `ref`.
- **Binding overrides.** The map of module binding overrides is a sequence,
  taken in the order the host iterates it.
- **`BackendScopes`.** This is the model's own reading of what each call
  does to the backend's table of configuration scopes. The backend's code
  is not part of this model. The synchronizer's round-trip properties in
  `Lifecycle` are stated through this reading.

## Model

| member | source | states |
|---|---|---|
| Decimal.ParseNatToString | src/main/java/org/sonarlint/intellij/core/BackendService.kt:277 | the decimal text of the counter in a module id reads back as the counter |
| Decimal.NatToStringInjective | src/main/java/org/sonarlint/intellij/core/BackendService.kt:277 | distinct counter values render as distinct numerals |
| ModuleIds.Mint | src/main/java/org/sonarlint/intellij/core/BackendService.kt:277 | a minted id starts with the module name, and the text after its last dash reads back as the counter, even when the name contains dashes |
| ModuleIds.MintInjective | src/main/java/org/sonarlint/intellij/core/BackendService.kt:275-278 | two minted ids are equal only if both name and counter are equal |
| BackendService.ProjectId | src/main/java/org/sonarlint/intellij/core/BackendService.kt:273 | the project scope id is the project file path, or `DEFAULT_PROJECT` when there is none |
| BackendService.ModuleId | src/main/java/org/sonarlint/intellij/core/BackendService.kt:270-278 | a cached module keeps its id and the state is unchanged; an uncached module gets an id that encodes the current counter and starts with its name, the cache gains exactly that entry, and the counter advances by one |
| BackendService.InitialStateValid | src/main/java/org/sonarlint/intellij/core/BackendService.kt:271-272 | the empty cache with the counter at 1 satisfies the id invariant |
| BackendService.ValidIdsDistinct | src/main/java/org/sonarlint/intellij/core/BackendService.kt:272-278 | under the invariant, distinct cached modules have distinct ids |
| BackendService.ModuleIdValid | src/main/java/org/sonarlint/intellij/core/BackendService.kt:271-278 | minting keeps the invariant, and a freshly minted id collides with no cached id |
| BackendService.ModuleIdStable | src/main/java/org/sonarlint/intellij/core/BackendService.kt:277 | `computeIfAbsent`: a second lookup returns the same id and changes nothing |
| BackendService.DistinctModulesDistinctIds | src/main/java/org/sonarlint/intellij/core/BackendService.kt:275-278 | two different modules looked up in turn get different ids |
| BackendService.RemovedModuleGetsFreshId | src/main/java/org/sonarlint/intellij/core/BackendService.kt:232-241 | after a module is removed, its next lookup mints the id of the current counter, which is at least the counter at removal and above the old id's counter; so the new id differs from its old one and from every id cached at removal, and the counter moves past it |
| BackendService.ToSonarQubeConnection | src/main/java/org/sonarlint/intellij/core/BackendService.kt:149-151 | a server connection is sent as its name and host URL |
| BackendService.ToSonarCloudConnection | src/main/java/org/sonarlint/intellij/core/BackendService.kt:153-156 | a SonarCloud connection is sent as its name and organization key |
| BackendService.ToBackendConnection | src/main/java/org/sonarlint/intellij/core/BackendService.kt:135-156 | SonarCloud connections go to the Right as (name, organization key); all others go to the Left as (name, host URL) |
| BackendService.SonarCloudConnections | src/main/java/org/sonarlint/intellij/core/BackendService.kt:74-75 | the initialize payload's cloud list holds exactly the converted SonarCloud connections |
| BackendService.SonarQubeConnections | src/main/java/org/sonarlint/intellij/core/BackendService.kt:76-77 | the server list holds exactly the converted non-cloud connections |
| BackendService.PartitionSizes | src/main/java/org/sonarlint/intellij/core/BackendService.kt:73-77 | every stored connection lands in exactly one of the two lists |
| BackendService.PartitionPreservesOrder | src/main/java/org/sonarlint/intellij/core/BackendService.kt:73-77 | both lists keep the stored order (the filter distributes over concatenation) |
| BackendService.ConnectionAdded | src/main/java/org/sonarlint/intellij/core/BackendService.kt:123-125 | exactly one add-connection call, carrying the converted connection (side by kind; name with host URL or with organization key); the state is unchanged |
| BackendService.ConnectionUpdated | src/main/java/org/sonarlint/intellij/core/BackendService.kt:127-129 | exactly one update-connection call, carrying the converted connection (side by kind; name with host URL or with organization key); the state is unchanged |
| BackendService.ConnectionRemoved | src/main/java/org/sonarlint/intellij/core/BackendService.kt:131-133 | exactly one remove-connection call, carrying the given connection id; the state is unchanged |
| BackendService.StartOnce | src/main/java/org/sonarlint/intellij/core/BackendService.kt:64-91 | the first call emits one `Initialize` with the partitioned connections and sets the flag; a later call emits nothing and changes nothing |
| BackendService.StartOnceInitializesOnce | src/main/java/org/sonarlint/intellij/core/BackendService.kt:64-68 | any non-empty run of start calls emits exactly one `Initialize` |
| BackendService.StartedIsQuiet | src/main/java/org/sonarlint/intellij/core/BackendService.kt:64-65 | once initialized, any number of start calls emits nothing and changes nothing |
| BackendService.Dispose | src/main/java/org/sonarlint/intellij/core/BackendService.kt:281-283 | disposal emits exactly one shutdown call |
| BackendService.StoredBinding | src/main/java/org/sonarlint/intellij/core/BackendService.kt:180-184 | the binding sent for a project is its stored connection and key (none when unbound), with suggestions disabled exactly when the project setting is off |
| BackendService.ProjectOpened | src/main/java/org/sonarlint/intellij/core/BackendService.kt:158-167 | opening adds one scope: the project id, no parent, bindable, the project name, the stored binding |
| BackendService.ModuleRemoved | src/main/java/org/sonarlint/intellij/core/BackendService.kt:232-241 | one scope removal under the module's cached id; the module leaves the cache and nothing else does; an uncached module is removed under a freshly minted id of the current counter, and the counter advances by one |
| BackendService.ReAddedModuleGetsFreshId | src/main/java/org/sonarlint/intellij/core/BackendService.kt:216-241 | add, remove, add again: the removal sends the first addition's id, and the second addition gets the id of the current counter, different from the first id and from every id cached before the removal |
| BackendService.ModulesRemoved | src/main/java/org/sonarlint/intellij/core/BackendService.kt:170 | one removal per module, in order; the cache loses exactly those modules |
| BackendService.ModulesRemovedIds | src/main/java/org/sonarlint/intellij/core/BackendService.kt:170 | for distinct modules, each cached module's removal uses its cached id |
| BackendService.ValidShrink | src/main/java/org/sonarlint/intellij/core/BackendService.kt:240 | dropping cache entries (and advancing the counter) keeps the id invariant |
| BackendService.ProjectClosed | src/main/java/org/sonarlint/intellij/core/BackendService.kt:169-178 | closing removes each module's scope in module order, then the project's scope last; cached modules are removed under their ids and leave the cache; an uncached module is removed under an id minted from a counter value handed out during the close |
| BackendService.ModulesRemovedFresh | src/main/java/org/sonarlint/intellij/core/BackendService.kt:170 | a module with no cached id is removed under an id minted from a counter value handed out during the removals, never an earlier id |
| BackendService.OverridesBound | src/main/java/org/sonarlint/intellij/core/BackendService.kt:195-204 | one binding update per override, in order: the override's module id, the binding's connection, the override's key, and suggestions disabled; existing cache entries are kept (the cache gains nothing else: `OverridesBoundKeys`) |
| BackendService.OverridesBoundValid | src/main/java/org/sonarlint/intellij/core/BackendService.kt:195-204 | binding the overrides keeps the id invariant |
| BackendService.ProjectBound | src/main/java/org/sonarlint/intellij/core/BackendService.kt:187-205 | the project scope is updated first, with the new connection and key and the project's own suggestion setting; then one update per override; existing cache entries are kept and the cache gains exactly the overridden modules; the counter never moves back |
| BackendService.OverridesBoundKeys | src/main/java/org/sonarlint/intellij/core/BackendService.kt:195-204 | binding the overrides adds to the cache exactly the overridden modules and nothing else |
| BackendService.OverridesBoundFresh | src/main/java/org/sonarlint/intellij/core/BackendService.kt:195-204 | every module the overrides newly cache gets an id minted from a counter value handed out during the binding |
| BackendService.ProjectBoundFresh | src/main/java/org/sonarlint/intellij/core/BackendService.kt:187-205 | binding a project mints the id of every newly cached overridden module from the counter, so no earlier id, even one of a removed module, is reissued |
| BackendService.ProjectUnbound | src/main/java/org/sonarlint/intellij/core/BackendService.kt:207-214 | one update of the project scope that clears connection and key and keeps the suggestion setting |
| BackendService.BindingSuggestionsDisabled | src/main/java/org/sonarlint/intellij/core/BackendService.kt:257-264 | one update of the project scope that keeps the stored connection and key and disables suggestions |
| BackendService.ModuleAdded | src/main/java/org/sonarlint/intellij/core/BackendService.kt:216-230 | one scope under the project's scope, with the module's id and name and suggestions disabled; its connection is the project's, and its key is the module's configured key only when the project is bound; a cached module keeps its id and the state; an uncached one gets the id of the current counter and the counter advances by one |
| BackendService.ModuleUnbound | src/main/java/org/sonarlint/intellij/core/BackendService.kt:243-252 | one update of the module scope that clears connection and key, with suggestions staying disabled; an uncached module gets the id of the current counter and the counter advances by one |
| BackendService.TransitionsPreserveValid | src/main/java/org/sonarlint/intellij/core/BackendService.kt:64-252 | start-up, module add, remove and unbind, project bind and close all keep the id invariant |
| BackendService.TransitionsAdvanceCounter | src/main/java/org/sonarlint/intellij/core/BackendService.kt:271-278 | no transition moves the id counter back: start-up keeps it, the lookups and module transitions never lower it, and open, unbind, suggestion switch and dispose leave the state unchanged |
| BackendService.ModulesRemovedValid | src/main/java/org/sonarlint/intellij/core/BackendService.kt:170 | removing modules in turn keeps the id invariant |
| Lifecycle.ModulesAddedCache | src/main/java/org/sonarlint/intellij/core/BackendService.kt:216-230 | adding modules only extends the cache, by exactly those modules |
| Lifecycle.ModulesAddedValid | src/main/java/org/sonarlint/intellij/core/BackendService.kt:216-230 | adding modules keeps the id invariant |
| Lifecycle.ModulesAddedCalls | src/main/java/org/sonarlint/intellij/core/BackendService.kt:216-230 | one single-scope addition per module, under the project, with the id the cache ends up holding for it |
| Lifecycle.ModulesAddedIds | src/main/java/org/sonarlint/intellij/core/BackendService.kt:216-230 | the scope ids that module additions add are exactly the modules' cached ids |
| Lifecycle.ModulesAddedScopes | src/main/java/org/sonarlint/intellij/core/BackendService.kt:223 | every scope added for a module has the project as parent and a minted id |
| Lifecycle.OpenRegistersProjectScope | src/main/java/org/sonarlint/intellij/core/BackendService.kt:158-167 | opening stores the project's parentless scope with its stored binding and leaves every other scope alone |
| Lifecycle.UnbindClearsProjectScope | src/main/java/org/sonarlint/intellij/core/BackendService.kt:207-214 | unbinding changes only the project scope's binding, to no connection and no key |
| Lifecycle.SuggestionsDisabledOnlySetsFlag | src/main/java/org/sonarlint/intellij/core/BackendService.kt:257-264 | when the backend already holds the stored binding, disabling suggestions changes only the suggestion flag |
| Lifecycle.ModuleAddRemoveRoundTrip | src/main/java/org/sonarlint/intellij/core/BackendService.kt:216-241 | adding an uncached module and removing it restores both the scope table (minus its id) and the id cache |
| Lifecycle.OpenedProjectScopeTree | src/main/java/org/sonarlint/intellij/core/BackendService.kt:158-230 | provided the project id does not itself read as a minted module id (`CounterOf(ProjectId(p))` is none, which always holds for `DEFAULT_PROJECT`): after opening and adding the modules, the project scope is parentless and every module scope has the project scope as its parent |
| Lifecycle.SharedIdNamespace | src/main/java/org/sonarlint/intellij/core/BackendService.kt:273-277 | project and module ids share one namespace: a project file path `app-1` equals the id of the first module named `app`; `DEFAULT_PROJECT` never reads as a minted id |
| Lifecycle.ClosedRemovedIds | src/main/java/org/sonarlint/intellij/core/BackendService.kt:169-178 | closing removes exactly the modules' cached ids and the project id |
| Lifecycle.LifecycleScopes | src/main/java/org/sonarlint/intellij/core/BackendService.kt:158-241 | open, add modules, close: the scope table ends as before, minus the project id and the module ids |
| Lifecycle.ProjectLifecycleRoundTrip | src/main/java/org/sonarlint/intellij/core/BackendService.kt:158-241 | open, add modules, close: the id cache is restored and an empty backend table ends empty |
| FileCollector.Collect | src/main/java/org/sonarlint/intellij/actions/SonarAnalyzeVcsChangesAction.java:147-161 | everything collected is a non-binary, non-project file; an acceptable root is collected; below a file the visitor does not open, nothing else is collected |
| FileCollector.CollectedIsReached | src/main/java/org/sonarlint/intellij/actions/SonarAnalyzeVcsChangesAction.java:155-161 | every collected file is reached from the root through directories the visitor continues into |
| FileCollector.ReachedIsCollected | src/main/java/org/sonarlint/intellij/actions/SonarAnalyzeVcsChangesAction.java:155-161 | every acceptable file reached that way is collected |
| FileCollector.PrunedSubtree | src/main/java/org/sonarlint/intellij/actions/SonarAnalyzeVcsChangesAction.java:156-160 | a project file, or a directory named `.git`, contributes nothing |
| VcsChangesAction.ChangedFiles | src/main/java/org/sonarlint/intellij/actions/SonarAnalyzeVcsChangesAction.java:67 | the files of the changes, missing files dropped; empty exactly when no change has a file |
| VcsChangesAction.ChangedFilesAppend | src/main/java/org/sonarlint/intellij/actions/SonarAnalyzeVcsChangesAction.java:67 | the filter distributes over concatenation, so the files keep the changes' order and repetitions |
| VcsChangesAction.ChangedFilesSingle | src/main/java/org/sonarlint/intellij/actions/SonarAnalyzeVcsChangesAction.java:67 | a change contributes its file, or nothing when it has none |
| VcsChangesAction.Update | src/main/java/org/sonarlint/intellij/actions/SonarAnalyzeVcsChangesAction.java:56-90 | visible iff there are changes data, at least one file, and not a Rider solution; enabled iff visible and the project is present, initialized, not disposed, and not analysing |
| VcsChangesAction.ActionPerformed | src/main/java/org/sonarlint/intellij/actions/SonarAnalyzeVcsChangesAction.java:92-125 | hides iff there are no changes data; submits iff the project is present and live, there is a file, and the root is not selected or the warning is accepted; what it submits is the file set |
| VcsChangesAction.Contribution | src/main/java/org/sonarlint/intellij/actions/SonarAnalyzeVcsChangesAction.java:116-124 | a selected directory contributes what the visitor collects; a selected file contributes itself |
| VcsChangesAction.FileSet | src/main/java/org/sonarlint/intellij/actions/SonarAnalyzeVcsChangesAction.java:115-125 | a file is submitted iff some selected file contributes it |
| VcsChangesAction.SubmittedFiles | src/main/java/org/sonarlint/intellij/actions/SonarAnalyzeVcsChangesAction.java:115-125 | no directory is ever submitted, and every submitted file that was not selected passed the visitor's filter |
| VcsChangesAction.FileSetAppend | src/main/java/org/sonarlint/intellij/actions/SonarAnalyzeVcsChangesAction.java:115-125 | the file set of a concatenated selection is the union of the parts' file sets |
| VcsChangesAction.FileSetOrderFree | src/main/java/org/sonarlint/intellij/actions/SonarAnalyzeVcsChangesAction.java:125 | the submitted set ignores selection order and duplicates |
| VcsChangesAction.EnabledActionSubmits | src/main/java/org/sonarlint/intellij/actions/SonarAnalyzeVcsChangesAction.java:56-113 | a click on the enabled action submits iff the root is not selected or the warning is accepted |
| VcsChangesAction.SubmittedWhereShown | src/main/java/org/sonarlint/intellij/actions/SonarAnalyzeVcsChangesAction.java:56-106 | a click submits only where the action is visible, or for a Rider solution, which the click does not re-check |
| VcsChangesAction.WhatAnalyzed | src/main/java/org/sonarlint/intellij/actions/SonarAnalyzeVcsChangesAction.java:139-145 | the label is `1 file` exactly for one file; every other count, zero included, gives the decimal count followed by ` files` |
| VcsChangesAction.WhatAnalyzedCount | src/main/java/org/sonarlint/intellij/actions/SonarAnalyzeVcsChangesAction.java:139-145 | the count reads back from the label's leading digits |
| VcsChangesAction.WhatAnalyzedPlural | src/main/java/org/sonarlint/intellij/actions/SonarAnalyzeVcsChangesAction.java:139-145 | the label ends in `s` exactly when the count is not 1, zero included |
| ServerEventHandler.MessageOf | src/main/java/org/sonarlint/intellij/core/ServerEventHandler.kt:30-33 | a rule activation reads `Rule activated: ` and the key; any other event reads `Message received: ` and its rendering |
| ServerEventHandler.TitleOf | src/main/java/org/sonarlint/intellij/core/ServerEventHandler.kt:40 | the title is `Event received from ` followed by the connection name |
| ServerEventHandler.MessageRoundTrip | src/main/java/org/sonarlint/intellij/core/ServerEventHandler.kt:30-33 | a rule key reads back from its text, and no other event's text reads as a rule activation |
| ServerEventHandler.MessageInjective | src/main/java/org/sonarlint/intellij/core/ServerEventHandler.kt:30-33 | distinct rule keys, and distinct renderings of other events, give distinct texts, and no rule activation shares a text with another event |
| ServerEventHandler.TitleInjective | src/main/java/org/sonarlint/intellij/core/ServerEventHandler.kt:40 | distinct connection names give distinct titles |
| ServerEventHandler.ExpireCurrent | src/main/java/org/sonarlint/intellij/core/ServerEventHandler.kt:38 | exactly the notification in the slot, if any, becomes expired; all else is unchanged |
| ServerEventHandler.Handle | src/main/java/org/sonarlint/intellij/core/ServerEventHandler.kt:29-47 | the previous current notification expires; the new notification is important information with the title and text above; the slot holds it |
| ServerEventHandler.InitialOneLive | src/main/java/org/sonarlint/intellij/core/ServerEventHandler.kt:27 | initially no notification is live |
| ServerEventHandler.HandlePreservesOneLive | src/main/java/org/sonarlint/intellij/core/ServerEventHandler.kt:37-47 | handling keeps the invariant: any live notification is the most recent one, and it is in the slot |
| ServerEventHandler.HandleAll | src/main/java/org/sonarlint/intellij/core/ServerEventHandler.kt:29-47 | a run of events creates one notification per event |
| ServerEventHandler.AtMostOneLive | src/main/java/org/sonarlint/intellij/core/ServerEventHandler.kt:27-47 | under the invariant, at most one notification is live |
| ServerEventHandler.HandleAllShowsLast | src/main/java/org/sonarlint/intellij/core/ServerEventHandler.kt:37-47 | after a non-empty run of events, the one live notification is in the slot and shows the last event |

## Left out

- Storage migration and the local storage path (`migrateStoragePath`, `getLocalStoragePath`): these are file-system moves, deletes and IDE path lookups.
- The message-bus subscription in `initialize` is host wiring. The project open and close handlers are modelled directly as transitions.
- The rest of the initialize payload is left out: the embedded plugin lists, the enabled languages, the Node.js version and the storage path. These come from collaborators that are not part of this model.
- `getActiveRuleDetails`: the request to the backend and its asynchronous future are not modelled. Its one effect on the synchronizer state is its `moduleId(module)` lookup. That lookup is `BackendService.ModuleId`: for an uncached module it mints and caches an id and advances the counter.
- Failing backend calls: the model assumes every backend call returns normally. In the source, an exception propagates and aborts the rest of the handler. `moduleRemoved` would then keep the cache entry, because the removal from the cache comes after the call. A failure inside `initialize` would leave `initialized` set with no initialize call made.
- Concurrency: the unsynchronized `initialized` flag and the static id cache. The model assumes a single-threaded caller.
- BackendService.ModuleId: the counter is an unbounded natural. The source's 32-bit `Int` would wrap after 2^31 - 1 minted ids, and the model does not include that wrap.
- Iteration order of the module binding overrides: the model takes the overrides as a sequence in the host's order.
- Foreign predicates are inputs: the SonarCloud flag of a connection, the Rider solution check, the whole-project warning dialog, file type, binary-ness, project-file detection, and an event's string rendering.
- VcsChangesAction.ActionPerformed: the warning answer is a plain input. The source only opens the dialog when the project root is selected, and the model consults the answer only in that case.
- The choice of analysis callback and of background execution (`executeBackground`, the tool-window place check) is IDE action-place plumbing. So is the submitter call itself: the model returns the submitted set.
- FileCollector.Collect: the tree is finite and acyclic. The model does not cover symbolic links, which the visitor is told not to follow.
- VFS traversal mechanics: the tree is abstract, and files compare by value.
- ServerEventHandler.Handle: showing the balloon (`notify`) and the notification group are not modelled. Expiry by the user or the IDE outside the handler is not a transition here either; it could only reduce the number of live notifications.
- ServerEventHandler.MessageOf: an event is reduced to the rule key of a rule activation, or to the string rendering of any other event. The text depends on nothing else, so other event content (other fields of a rule activation, the kind of a non-rule event beyond its rendering) is not modelled and is not distinguished by the text.
- BackendScopes: the backend's handling of the calls is not part of this model. `BackendScopes` is a reference reading of the call log, used to state round trips.
