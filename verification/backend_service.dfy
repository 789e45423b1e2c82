/**
 The synchronizer between the IDE and the analysis backend: a single-threaded
 state machine whose observable output is the ordered log of backend calls.
 Its state is the `initialized` flag, the module-id cache and the counter the
 cache mints identifiers from.
 */
module BackendService {
  import opened Wrappers
  import opened Host
  import opened BackendApi
  import opened ModuleIds

  /** The scope id used for a project that has no project file path. */
  const DefaultProjectId: string := "DEFAULT_PROJECT"

  datatype SyncState = SyncState(
    initialized: bool,
    moduleIds: map<ModuleRef, string>,
    moduleCount: nat)

  /** The state after a transition and the backend calls it made, in order. */
  datatype Step = Step(state: SyncState, calls: seq<BackendCall>)

  /** The result of looking up a module id: the cache may have grown. */
  datatype Lookup = Lookup(state: SyncState, id: string)

  /** The counter starts at 1 and the cache starts empty. */
  const InitialState: SyncState := SyncState(false, map[], 1)

  /**
   Every cached id encodes a counter value already handed out, and no two
   cached ids encode the same counter value.
   */
  predicate Valid(s: SyncState) {
    && s.moduleCount >= 1
    && (forall r | r in s.moduleIds ::
          CounterOf(s.moduleIds[r]).Some? && 1 <= CounterOf(s.moduleIds[r]).value < s.moduleCount)
    && (forall r1, r2 | r1 in s.moduleIds && r2 in s.moduleIds && r1 != r2 ::
          CounterOf(s.moduleIds[r1]) != CounterOf(s.moduleIds[r2]))
  }

  lemma InitialStateValid()
    ensures Valid(InitialState)
  {
  }

  /** Distinct modules in the cache of a valid state have distinct ids. */
  lemma ValidIdsDistinct(s: SyncState, r1: ModuleRef, r2: ModuleRef)
    requires Valid(s)
    requires r1 in s.moduleIds && r2 in s.moduleIds && r1 != r2
    ensures s.moduleIds[r1] != s.moduleIds[r2]
  {
  }

  // ---------------------------------------------------------------------------
  // Identifiers

  function ProjectId(p: Project): (id: string)
    ensures p.projectFilePath.Some? ==> id == p.projectFilePath.value
    ensures p.projectFilePath.None? ==> id == DefaultProjectId
  {
    p.projectFilePath.GetOr(DefaultProjectId)
  }

  /**
   The cached id of `m`, minting `name-counter` and advancing the counter when
   the module has none yet.
   */
  function ModuleId(s: SyncState, m: Module): (r: Lookup)
    ensures m.ref in r.state.moduleIds && r.state.moduleIds[m.ref] == r.id
    ensures r.state.moduleIds == s.moduleIds[m.ref := r.id]
    ensures r.state.initialized == s.initialized
    ensures m.ref in s.moduleIds ==> r == Lookup(s, s.moduleIds[m.ref])
    ensures m.ref !in s.moduleIds ==>
              && CounterOf(r.id) == Some(s.moduleCount)
              && |r.id| > |m.name| && r.id[..|m.name|] == m.name
              && r.state.moduleCount == s.moduleCount + 1
  {
    if m.ref in s.moduleIds then
      Lookup(s, s.moduleIds[m.ref])
    else
      var id := Mint(m.name, s.moduleCount);
      Lookup(SyncState(s.initialized, s.moduleIds[m.ref := id], s.moduleCount + 1), id)
  }

  /** Minting keeps the cache valid, and a minted id is none of the ids already cached. */
  lemma ModuleIdValid(s: SyncState, m: Module)
    requires Valid(s)
    ensures Valid(ModuleId(s, m).state)
    ensures m.ref !in s.moduleIds ==> ModuleId(s, m).id !in s.moduleIds.Values
  {
    var r := ModuleId(s, m);
    if m.ref !in s.moduleIds {
      forall id | id in s.moduleIds.Values
        ensures id != r.id
      {
        var x :| x in s.moduleIds && s.moduleIds[x] == id;
        assert CounterOf(id).value < s.moduleCount;
      }
    }
  }

  // ---------------------------------------------------------------------------
  // Connections

  /** A server connection is known to the backend by its name and host URL. */
  function ToSonarQubeConnection(c: ServerConnection): (r: SonarQubeConnection)
    ensures r.connectionId == c.name && r.serverUrl == c.hostUrl
  {
    SonarQubeConnection(c.name, c.hostUrl)
  }

  /** A SonarCloud connection is known to the backend by its name and organization key. */
  function ToSonarCloudConnection(c: ServerConnection): (r: SonarCloudConnection)
    requires c.isSonarCloud && HasOrganizationWhenCloud(c)
    ensures r.connectionId == c.name && Some(r.organization) == c.organizationKey
  {
    SonarCloudConnection(c.name, c.organizationKey.value)
  }

  /** SonarCloud connections go to the right as (name, organization), all others to the left as (name, URL). */
  function ToBackendConnection(c: ServerConnection): (r: ConnectionConfig)
    requires HasOrganizationWhenCloud(c)
    ensures r.Right? <==> c.isSonarCloud
    ensures r.Right? ==> r.right.connectionId == c.name && Some(r.right.organization) == c.organizationKey
    ensures r.Left? ==> r.left.connectionId == c.name && r.left.serverUrl == c.hostUrl
  {
    if c.isSonarCloud then Right(ToSonarCloudConnection(c)) else Left(ToSonarQubeConnection(c))
  }

  /** The SonarCloud connections among `conns`, converted, in their order. */
  function SonarCloudConnections(conns: seq<ServerConnection>): (r: seq<SonarCloudConnection>)
    requires forall c | c in conns :: HasOrganizationWhenCloud(c)
    ensures |r| <= |conns|
    ensures forall d :: d in r <==> exists c :: c in conns && c.isSonarCloud && d == ToSonarCloudConnection(c)
  {
    if |conns| == 0 then []
    else
      var rest := SonarCloudConnections(conns[1..]);
      assert forall c :: c in conns <==> c == conns[0] || c in conns[1..];
      assert HasOrganizationWhenCloud(conns[0]);
      if conns[0].isSonarCloud then [ToSonarCloudConnection(conns[0])] + rest else rest
  }

  /** The other connections among `conns`, converted, in their order. */
  function SonarQubeConnections(conns: seq<ServerConnection>): (r: seq<SonarQubeConnection>)
    ensures |r| <= |conns|
    ensures forall d :: d in r <==> exists c :: c in conns && !c.isSonarCloud && d == ToSonarQubeConnection(c)
  {
    if |conns| == 0 then []
    else
      var rest := SonarQubeConnections(conns[1..]);
      assert forall c :: c in conns <==> c == conns[0] || c in conns[1..];
      if !conns[0].isSonarCloud then [ToSonarQubeConnection(conns[0])] + rest else rest
  }

  /** Every stored connection lands in exactly one of the two lists: nothing is dropped or merged. */
  lemma {:induction false} PartitionSizes(conns: seq<ServerConnection>)
    requires forall c | c in conns :: HasOrganizationWhenCloud(c)
    ensures |SonarQubeConnections(conns)| + |SonarCloudConnections(conns)| == |conns|
  {
    if |conns| > 0 {
      PartitionSizes(conns[1..]);
    }
  }

  /** Both lists keep the order of the stored connections. */
  lemma {:induction false} PartitionPreservesOrder(a: seq<ServerConnection>, b: seq<ServerConnection>)
    requires forall c | c in a + b :: HasOrganizationWhenCloud(c)
    ensures SonarCloudConnections(a + b) == SonarCloudConnections(a) + SonarCloudConnections(b)
    ensures SonarQubeConnections(a + b) == SonarQubeConnections(a) + SonarQubeConnections(b)
    decreases |a|
  {
    if |a| == 0 {
      assert a + b == b;
    } else {
      assert (a + b)[1..] == a[1..] + b;
      assert (a + b)[0] == a[0];
      PartitionPreservesOrder(a[1..], b);
    }
  }

  function ConnectionAdded(s: SyncState, c: ServerConnection): (r: Step)
    requires HasOrganizationWhenCloud(c)
    ensures r.state == s
    ensures |r.calls| == 1 && r.calls[0].AddConnection?
    ensures r.calls[0].addedConnection.Right? <==> c.isSonarCloud
    ensures r.calls[0].addedConnection == ToBackendConnection(c)
  {
    Step(s, [AddConnection(ToBackendConnection(c))])
  }

  function ConnectionUpdated(s: SyncState, c: ServerConnection): (r: Step)
    requires HasOrganizationWhenCloud(c)
    ensures r.state == s
    ensures |r.calls| == 1 && r.calls[0].UpdateConnection?
    ensures r.calls[0].updatedConnection.Right? <==> c.isSonarCloud
    ensures r.calls[0].updatedConnection == ToBackendConnection(c)
  {
    Step(s, [UpdateConnection(ToBackendConnection(c))])
  }

  /** The connection name is forwarded unchanged. */
  function ConnectionRemoved(s: SyncState, connectionId: string): (r: Step)
    ensures r.state == s
    ensures |r.calls| == 1 && r.calls[0].RemoveConnection?
    ensures r.calls[0].removedConnectionId == connectionId
  {
    Step(s, [RemoveConnection(connectionId)])
  }

  // ---------------------------------------------------------------------------
  // Start-up and shutdown

  /**
   Initializes the backend the first time only, with the stored connections
   split by kind. Every later call does nothing.
   */
  function StartOnce(s: SyncState, conns: seq<ServerConnection>): (r: Step)
    requires !s.initialized ==> forall c | c in conns :: HasOrganizationWhenCloud(c)
    ensures r.state.initialized
    ensures r.state.moduleIds == s.moduleIds && r.state.moduleCount == s.moduleCount
    ensures s.initialized ==> r == Step(s, [])
    ensures !s.initialized ==>
              && |r.calls| == 1
              && r.calls[0] == Initialize(SonarQubeConnections(conns), SonarCloudConnections(conns))
  {
    if s.initialized then Step(s, [])
    else Step(s.(initialized := true), [Initialize(SonarQubeConnections(conns), SonarCloudConnections(conns))])
  }

  /** A run of `StartOnce` calls, the i-th seeing the stored connections `connsPerCall[i]`. */
  function StartRepeatedly(s: SyncState, connsPerCall: seq<seq<ServerConnection>>): (r: Step)
    requires !s.initialized && |connsPerCall| > 0 ==>
               forall c | c in connsPerCall[0] :: HasOrganizationWhenCloud(c)
    decreases |connsPerCall|
  {
    if |connsPerCall| == 0 then Step(s, [])
    else
      var first := StartOnce(s, connsPerCall[0]);
      var rest := StartRepeatedly(first.state, connsPerCall[1..]);
      Step(rest.state, first.calls + rest.calls)
  }

  /** However often it is called, the backend is initialized exactly once. */
  lemma {:induction false} StartOnceInitializesOnce(s: SyncState, connsPerCall: seq<seq<ServerConnection>>)
    requires !s.initialized && |connsPerCall| > 0
    requires forall c | c in connsPerCall[0] :: HasOrganizationWhenCloud(c)
    ensures StartRepeatedly(s, connsPerCall).state.initialized
    ensures InitializeCount(StartRepeatedly(s, connsPerCall).calls) == 1
  {
    var first := StartOnce(s, connsPerCall[0]);
    StartedIsQuiet(first.state, connsPerCall[1..]);
    InitializeCountAppend(first.calls, StartRepeatedly(first.state, connsPerCall[1..]).calls);
  }

  lemma {:induction false} StartedIsQuiet(s: SyncState, connsPerCall: seq<seq<ServerConnection>>)
    requires s.initialized
    ensures StartRepeatedly(s, connsPerCall) == Step(s, [])
    decreases |connsPerCall|
  {
    if |connsPerCall| > 0 {
      StartedIsQuiet(s, connsPerCall[1..]);
    }
  }

  /** Disposing the service shuts the backend down, unconditionally. */
  function Dispose(s: SyncState): (r: Step)
    ensures r.state == s && |r.calls| == 1 && r.calls[0].Shutdown?
  {
    Step(s, [Shutdown])
  }

  // ---------------------------------------------------------------------------
  // Projects

  /** The binding the backend is told about for a project: the stored one, or none. */
  function StoredBinding(p: Project): (b: BindingConfig)
    ensures b.bindingSuggestionDisabled == !p.bindingSuggestionsEnabled
    ensures p.binding.None? ==> b.connectionId.None? && b.sonarProjectKey.None?
    ensures p.binding.Some? ==>
              && b.connectionId == Some(p.binding.value.connectionName)
              && b.sonarProjectKey == Some(p.binding.value.projectKey)
  {
    match p.binding
    case None => BindingConfig(None, None, !p.bindingSuggestionsEnabled)
    case Some(pb) => BindingConfig(Some(pb.connectionName), Some(pb.projectKey), !p.bindingSuggestionsEnabled)
  }

  /** An opened project becomes one parentless, bindable scope carrying its stored binding. */
  function ProjectOpened(s: SyncState, p: Project): (r: Step)
    ensures r.state == s
    ensures |r.calls| == 1 && r.calls[0].AddScopes? && |r.calls[0].addedScopes| == 1
    ensures var scope := r.calls[0].addedScopes[0];
            && scope.id == ProjectId(p)
            && scope.parentId.None?
            && scope.bindable
            && scope.name == p.name
            && scope.binding == StoredBinding(p)
  {
    Step(s, [AddScopes([ConfigScope(ProjectId(p), None, true, p.name, StoredBinding(p))])])
  }

  /** Removes the scope of a module and forgets its id: a later lookup mints a new one. */
  function ModuleRemoved(s: SyncState, m: Module): (r: Step)
    ensures r.state.moduleIds == s.moduleIds - {m.ref}
    ensures r.state.initialized == s.initialized
    ensures r.state.moduleCount >= s.moduleCount
    ensures |r.calls| == 1 && r.calls[0].RemoveScope?
    ensures m.ref in s.moduleIds ==> r.calls[0].removedId == s.moduleIds[m.ref] && r.state.moduleCount == s.moduleCount
    ensures m.ref !in s.moduleIds ==>
              CounterOf(r.calls[0].removedId) == Some(s.moduleCount) && r.state.moduleCount == s.moduleCount + 1
  {
    var l := ModuleId(s, m);
    Step(l.state.(moduleIds := l.state.moduleIds - {m.ref}), [RemoveScope(l.id)])
  }

  /** `ModuleRemoved` for each module in turn. */
  function ModulesRemoved(s: SyncState, mods: seq<Module>): (r: Step)
    ensures r.state.moduleIds == s.moduleIds - Refs(mods)
    ensures r.state.initialized == s.initialized
    ensures r.state.moduleCount >= s.moduleCount
    ensures |r.calls| == |mods|
    ensures forall i | 0 <= i < |mods| :: r.calls[i].RemoveScope?
    decreases |mods|
  {
    if |mods| == 0 then Step(s, [])
    else
      var first := ModuleRemoved(s, mods[0]);
      var rest := ModulesRemoved(first.state, mods[1..]);
      RefsCons(mods);
      Step(rest.state, first.calls + rest.calls)
  }

  /**
   A module that had no id is removed under an id minted from a counter value
   handed out during the removals.
   */
  lemma {:induction false} ModulesRemovedFresh(s: SyncState, mods: seq<Module>)
    ensures var r := ModulesRemoved(s, mods);
            forall i | 0 <= i < |mods| && mods[i].ref !in s.moduleIds ::
              CounterOf(r.calls[i].removedId).Some? &&
              s.moduleCount <= CounterOf(r.calls[i].removedId).value < r.state.moduleCount
    decreases |mods|
  {
    if |mods| > 0 {
      var r := ModulesRemoved(s, mods);
      var first := ModuleRemoved(s, mods[0]);
      var rest := ModulesRemoved(first.state, mods[1..]);
      ModulesRemovedFresh(first.state, mods[1..]);
      assert r.calls == first.calls + rest.calls && r.state == rest.state;
      assert s.moduleCount <= first.state.moduleCount <= rest.state.moduleCount;
      forall i | 0 <= i < |mods| && mods[i].ref !in s.moduleIds
        ensures CounterOf(r.calls[i].removedId).Some?
        ensures s.moduleCount <= CounterOf(r.calls[i].removedId).value < r.state.moduleCount
      {
        if i == 0 {
          assert r.calls[0] == first.calls[0];
        } else {
          assert mods[1..][i - 1] == mods[i] && mods[i].ref !in first.state.moduleIds;
          assert r.calls[i] == rest.calls[i - 1];
        }
      }
    }
  }

  /** Each distinct module that had an id is removed under that id. */
  lemma {:induction false} ModulesRemovedIds(s: SyncState, mods: seq<Module>)
    ensures DistinctRefs(mods) ==>
              forall i | 0 <= i < |mods| && mods[i].ref in s.moduleIds ::
                ModulesRemoved(s, mods).calls[i].removedId == s.moduleIds[mods[i].ref]
    decreases |mods|
  {
    if |mods| > 0 && DistinctRefs(mods) {
      var r := ModulesRemoved(s, mods);
      var first := ModuleRemoved(s, mods[0]);
      var rest := ModulesRemoved(first.state, mods[1..]);
      ModulesRemovedIds(first.state, mods[1..]);
      assert r.calls == first.calls + rest.calls;
      forall i | 1 <= i < |mods| && mods[i].ref in s.moduleIds
        ensures r.calls[i].removedId == s.moduleIds[mods[i].ref]
      {
        assert mods[1..][i - 1] == mods[i];
        assert r.calls[i] == rest.calls[i - 1];
        assert mods[i].ref != mods[0].ref;
      }
    }
  }

  /** Forgetting ids and advancing the counter keeps a state valid. */
  lemma ValidShrink(s: SyncState, t: SyncState)
    requires t.moduleIds.Keys <= s.moduleIds.Keys
    requires forall x | x in t.moduleIds :: t.moduleIds[x] == s.moduleIds[x]
    requires t.moduleCount >= s.moduleCount
    ensures Valid(s) ==> Valid(t)
  {
  }

  /** Closing a project removes every module's scope, in module order, and then the project's own scope. */
  function ProjectClosed(s: SyncState, p: Project): (r: Step)
    ensures |r.calls| == |p.modules| + 1
    ensures forall i | 0 <= i < |r.calls| :: r.calls[i].RemoveScope?
    ensures r.calls[|p.modules|].removedId == ProjectId(p)
    ensures DistinctRefs(p.modules) ==>
              forall i | 0 <= i < |p.modules| && p.modules[i].ref in s.moduleIds ::
                r.calls[i].removedId == s.moduleIds[p.modules[i].ref]
    ensures forall i | 0 <= i < |p.modules| && p.modules[i].ref !in s.moduleIds ::
              CounterOf(r.calls[i].removedId).Some? &&
              s.moduleCount <= CounterOf(r.calls[i].removedId).value < r.state.moduleCount
    ensures r.state.moduleIds == s.moduleIds - Refs(p.modules)
    ensures r.state.initialized == s.initialized
    ensures r.state.moduleCount >= s.moduleCount
  {
    var removed := ModulesRemoved(s, p.modules);
    ModulesRemovedIds(s, p.modules);
    ModulesRemovedFresh(s, p.modules);
    Step(removed.state, removed.calls + [RemoveScope(ProjectId(p))])
  }

  /** One binding update per module override, each with the binding's connection and suggestions disabled. */
  function OverridesBound(s: SyncState, connectionName: string, overrides: seq<ModuleOverride>): (r: Step)
    ensures |r.calls| == |overrides|
    ensures forall i | 0 <= i < |overrides| ::
              && r.calls[i].UpdateBinding?
              && r.calls[i].updatedBinding == BindingConfig(Some(connectionName), Some(overrides[i].projectKey), true)
              && overrides[i].overridden.ref in r.state.moduleIds
              && r.calls[i].configScopeId == r.state.moduleIds[overrides[i].overridden.ref]
    ensures forall x | x in s.moduleIds :: x in r.state.moduleIds && r.state.moduleIds[x] == s.moduleIds[x]
    ensures r.state.initialized == s.initialized
    ensures r.state.moduleCount >= s.moduleCount
    decreases |overrides|
  {
    if |overrides| == 0 then Step(s, [])
    else
      var l := ModuleId(s, overrides[0].overridden);
      var rest := OverridesBound(l.state, connectionName, overrides[1..]);
      var call := UpdateBinding(l.id, BindingConfig(Some(connectionName), Some(overrides[0].projectKey), true));
      assert forall i | 1 <= i < |overrides| :: overrides[1..][i - 1] == overrides[i];
      Step(rest.state, [call] + rest.calls)
  }

  lemma {:induction false} OverridesBoundValid(s: SyncState, connectionName: string, overrides: seq<ModuleOverride>)
    ensures Valid(s) ==> Valid(OverridesBound(s, connectionName, overrides).state)
    decreases |overrides|
  {
    if |overrides| > 0 && Valid(s) {
      ModuleIdValid(s, overrides[0].overridden);
      OverridesBoundValid(ModuleId(s, overrides[0].overridden).state, connectionName, overrides[1..]);
    }
  }

  /** Binding the overrides caches exactly the overridden modules that had no id yet. */
  lemma {:induction false} OverridesBoundKeys(s: SyncState, connectionName: string, overrides: seq<ModuleOverride>)
    ensures OverridesBound(s, connectionName, overrides).state.moduleIds.Keys == s.moduleIds.Keys + OverrideRefs(overrides)
    decreases |overrides|
  {
    if |overrides| > 0 {
      var l := ModuleId(s, overrides[0].overridden);
      OverridesBoundKeys(l.state, connectionName, overrides[1..]);
      OverrideRefsCons(overrides);
    }
  }

  /**
   Every module cached in `t` but not in `s` has an id minted from a counter
   value handed out between the two states.
   */
  predicate MintedSince(s: SyncState, t: SyncState) {
    forall x | x in t.moduleIds && x !in s.moduleIds ::
      CounterOf(t.moduleIds[x]).Some? && s.moduleCount <= CounterOf(t.moduleIds[x]).value < t.moduleCount
  }

  /**
   Every module the overrides newly cache gets an id minted during the
   binding, so none of them reuses an earlier id.
   */
  lemma {:induction false} OverridesBoundFresh(s: SyncState, connectionName: string, overrides: seq<ModuleOverride>)
    ensures MintedSince(s, OverridesBound(s, connectionName, overrides).state)
    decreases |overrides|
  {
    if |overrides| > 0 {
      OverridesBoundFresh(ModuleId(s, overrides[0].overridden).state, connectionName, overrides[1..]);
    }
  }

  /**
   Binding a project updates the project's scope first, keeping its own
   suggestion setting, then each overridden module's scope.
   */
  function ProjectBound(s: SyncState, p: Project, b: ProjectBinding): (r: Step)
    ensures |r.calls| == 1 + |b.moduleOverrides|
    ensures forall i | 0 <= i < |r.calls| :: r.calls[i].UpdateBinding?
    ensures r.calls[0].configScopeId == ProjectId(p)
    ensures r.calls[0].updatedBinding ==
              BindingConfig(Some(b.connectionName), Some(b.projectKey), !p.bindingSuggestionsEnabled)
    ensures forall i | 0 <= i < |b.moduleOverrides| ::
              var o := b.moduleOverrides[i];
              && r.calls[i + 1].updatedBinding == BindingConfig(Some(b.connectionName), Some(o.projectKey), true)
              && o.overridden.ref in r.state.moduleIds
              && r.calls[i + 1].configScopeId == r.state.moduleIds[o.overridden.ref]
    ensures forall x | x in s.moduleIds :: x in r.state.moduleIds && r.state.moduleIds[x] == s.moduleIds[x]
    ensures r.state.moduleIds.Keys == s.moduleIds.Keys + OverrideRefs(b.moduleOverrides)
    ensures r.state.initialized == s.initialized
    ensures r.state.moduleCount >= s.moduleCount
  {
    OverridesBoundKeys(s, b.connectionName, b.moduleOverrides);
    var root := UpdateBinding(ProjectId(p),
      BindingConfig(Some(b.connectionName), Some(b.projectKey), !p.bindingSuggestionsEnabled));
    var modules := OverridesBound(s, b.connectionName, b.moduleOverrides);
    Step(modules.state, [root] + modules.calls)
  }

  /**
   Binding a project mints the id of every overridden module it newly caches
   from the counter, so no earlier id, even of a removed module, is reissued.
   */
  lemma ProjectBoundFresh(s: SyncState, p: Project, b: ProjectBinding)
    ensures MintedSince(s, ProjectBound(s, p, b).state)
  {
    OverridesBoundFresh(s, b.connectionName, b.moduleOverrides);
  }

  /** Unbinding clears connection and key of the project's scope and keeps its suggestion setting. */
  function ProjectUnbound(s: SyncState, p: Project): (r: Step)
    ensures r.state == s
    ensures |r.calls| == 1 && r.calls[0].UpdateBinding? && r.calls[0].configScopeId == ProjectId(p)
    ensures r.calls[0].updatedBinding.connectionId.None? && r.calls[0].updatedBinding.sonarProjectKey.None?
    ensures r.calls[0].updatedBinding.bindingSuggestionDisabled == !p.bindingSuggestionsEnabled
  {
    Step(s, [UpdateBinding(ProjectId(p), BindingConfig(None, None, !p.bindingSuggestionsEnabled))])
  }

  /** Turning suggestions off keeps the project's stored connection and key and disables suggestions. */
  function BindingSuggestionsDisabled(s: SyncState, p: Project): (r: Step)
    ensures r.state == s
    ensures |r.calls| == 1 && r.calls[0].UpdateBinding? && r.calls[0].configScopeId == ProjectId(p)
    ensures r.calls[0].updatedBinding.connectionId == StoredBinding(p).connectionId
    ensures r.calls[0].updatedBinding.sonarProjectKey == StoredBinding(p).sonarProjectKey
    ensures r.calls[0].updatedBinding.bindingSuggestionDisabled
  {
    var stored := StoredBinding(p);
    Step(s, [UpdateBinding(ProjectId(p), BindingConfig(stored.connectionId, stored.sonarProjectKey, true))])
  }

  // ---------------------------------------------------------------------------
  // Modules

  /**
   A module of project `p` becomes a scope under the project's scope. It
   inherits the project's connection, takes its own configured key only when
   the project is bound, and never gets binding suggestions.
   */
  function ModuleAdded(s: SyncState, p: Project, m: Module): (r: Step)
    ensures |r.calls| == 1 && r.calls[0].AddScopes? && |r.calls[0].addedScopes| == 1
    ensures var scope := r.calls[0].addedScopes[0];
            && m.ref in r.state.moduleIds
            && scope.id == r.state.moduleIds[m.ref]
            && scope.parentId == Some(ProjectId(p))
            && scope.bindable
            && scope.name == m.name
            && scope.binding.bindingSuggestionDisabled
            && (p.binding.None? ==> scope.binding.connectionId.None? && scope.binding.sonarProjectKey.None?)
            && (p.binding.Some? ==>
                  && scope.binding.connectionId == Some(p.binding.value.connectionName)
                  && scope.binding.sonarProjectKey == m.configuredProjectKey)
    ensures r.state.moduleIds == s.moduleIds[m.ref := r.calls[0].addedScopes[0].id]
    ensures m.ref in s.moduleIds ==> r.state == s
    ensures m.ref !in s.moduleIds ==>
              CounterOf(r.calls[0].addedScopes[0].id) == Some(s.moduleCount) && r.state.moduleCount == s.moduleCount + 1
    ensures r.state.initialized == s.initialized
    ensures r.state.moduleCount >= s.moduleCount
  {
    var l := ModuleId(s, m);
    var binding := BindingConfig(
      if p.binding.Some? then Some(p.binding.value.connectionName) else None,
      if p.binding.Some? then m.configuredProjectKey else None,
      true);
    Step(l.state, [AddScopes([ConfigScope(l.id, Some(ProjectId(p)), true, m.name, binding)])])
  }

  /** Unbinding a module clears its connection and key; suggestions stay disabled. */
  function ModuleUnbound(s: SyncState, m: Module): (r: Step)
    ensures |r.calls| == 1 && r.calls[0].UpdateBinding?
    ensures m.ref in r.state.moduleIds && r.calls[0].configScopeId == r.state.moduleIds[m.ref]
    ensures r.calls[0].updatedBinding == BindingConfig(None, None, true)
    ensures r.state.moduleIds == s.moduleIds[m.ref := r.calls[0].configScopeId]
    ensures m.ref in s.moduleIds ==> r.state == s
    ensures m.ref !in s.moduleIds ==>
              CounterOf(r.calls[0].configScopeId) == Some(s.moduleCount) && r.state.moduleCount == s.moduleCount + 1
    ensures r.state.initialized == s.initialized
    ensures r.state.moduleCount >= s.moduleCount
  {
    var l := ModuleId(s, m);
    Step(l.state, [UpdateBinding(l.id, BindingConfig(None, None, true))])
  }

  // ---------------------------------------------------------------------------
  // Module-id properties across calls

  /** Looking a module up again gives the same id and changes nothing. */
  lemma ModuleIdStable(s: SyncState, m: Module)
    ensures ModuleId(ModuleId(s, m).state, m) == Lookup(ModuleId(s, m).state, ModuleId(s, m).id)
  {
  }

  /** Two different modules looked up one after the other get different ids. */
  lemma DistinctModulesDistinctIds(s: SyncState, m1: Module, m2: Module)
    requires Valid(s)
    requires m1.ref != m2.ref
    ensures var l1 := ModuleId(s, m1);
            var l2 := ModuleId(l1.state, m2);
            l1.id != l2.id
  {
    var l1 := ModuleId(s, m1);
    var l2 := ModuleId(l1.state, m2);
    ModuleIdValid(s, m1);
    ModuleIdValid(l1.state, m2);
    ValidIdsDistinct(l2.state, m1.ref, m2.ref);
  }

  /**
   After a module is removed, looking it up again mints an id from the
   current counter. Every transition only ever advances the counter, so that
   counter exceeds every counter handed out before; in particular the new id
   differs from the one the module had and from every id still cached.
   */
  lemma RemovedModuleGetsFreshId(s: SyncState, m: Module)
    requires Valid(s)
    ensures var l1 := ModuleId(s, m);
            var removed := ModuleRemoved(l1.state, m);
            var l2 := ModuleId(removed.state, m);
            && CounterOf(l2.id) == Some(removed.state.moduleCount)
            && removed.state.moduleCount >= l1.state.moduleCount > CounterOf(l1.id).value
            && l2.id != l1.id
            && l2.id !in l1.state.moduleIds.Values
            && l2.state.moduleCount > l1.state.moduleCount
  {
    var l1 := ModuleId(s, m);
    var removed := ModuleRemoved(l1.state, m);
    var l2 := ModuleId(removed.state, m);
    ModuleIdValid(s, m);
    ModuleIdValid(removed.state, m);
    assert CounterOf(l2.id) == Some(l1.state.moduleCount);
    forall id | id in l1.state.moduleIds.Values
      ensures id != l2.id
    {
      var x :| x in l1.state.moduleIds && l1.state.moduleIds[x] == id;
      assert CounterOf(id).value < l1.state.moduleCount;
    }
  }

  /**
   Adding a module, removing it and adding it again: the removal sends the id
   the first addition used, and the second addition mints a new id, different
   from the first and from every id cached before the removal.
   */
  lemma ReAddedModuleGetsFreshId(s: SyncState, p: Project, m: Module)
    requires Valid(s)
    ensures var added := ModuleAdded(s, p, m);
            var removed := ModuleRemoved(added.state, m);
            var again := ModuleAdded(removed.state, p, m);
            && removed.calls[0].removedId == added.calls[0].addedScopes[0].id
            && CounterOf(again.calls[0].addedScopes[0].id) == Some(removed.state.moduleCount)
            && again.calls[0].addedScopes[0].id != added.calls[0].addedScopes[0].id
            && again.calls[0].addedScopes[0].id !in added.state.moduleIds.Values
  {
    var added := ModuleAdded(s, p, m);
    var removed := ModuleRemoved(added.state, m);
    var again := ModuleAdded(removed.state, p, m);
    assert added.state == ModuleId(s, m).state;
    assert again.calls[0].addedScopes[0].id == ModuleId(removed.state, m).id;
    RemovedModuleGetsFreshId(s, m);
  }

  /** Every transition keeps the id cache valid. */
  lemma TransitionsPreserveValid(s: SyncState, p: Project, m: Module, b: ProjectBinding, conns: seq<ServerConnection>)
    requires Valid(s)
    ensures !s.initialized && (forall c | c in conns :: HasOrganizationWhenCloud(c)) ==> Valid(StartOnce(s, conns).state)
    ensures Valid(ModuleAdded(s, p, m).state)
    ensures Valid(ModuleRemoved(s, m).state)
    ensures Valid(ModuleUnbound(s, m).state)
    ensures Valid(ProjectBound(s, p, b).state)
    ensures Valid(ProjectClosed(s, p).state)
  {
    ModuleIdValid(s, m);
    ValidShrink(ModuleId(s, m).state, ModuleRemoved(s, m).state);
    OverridesBoundValid(s, b.connectionName, b.moduleOverrides);
    ModulesRemovedValid(s, p.modules);
  }

  /**
   No transition ever moves the id counter back. Since every newly cached id
   is minted from the counter before it advances (`ModuleId`, `OverridesBoundFresh`,
   `ModulesRemovedFresh`), no counter value is handed out twice.
   */
  lemma TransitionsAdvanceCounter(s: SyncState, p: Project, m: Module, b: ProjectBinding, conns: seq<ServerConnection>)
    ensures !s.initialized && (forall c | c in conns :: HasOrganizationWhenCloud(c)) ==>
              StartOnce(s, conns).state.moduleCount == s.moduleCount
    ensures ModuleId(s, m).state.moduleCount >= s.moduleCount
    ensures ModuleAdded(s, p, m).state.moduleCount >= s.moduleCount
    ensures ModuleRemoved(s, m).state.moduleCount >= s.moduleCount
    ensures ModuleUnbound(s, m).state.moduleCount >= s.moduleCount
    ensures ProjectBound(s, p, b).state.moduleCount >= s.moduleCount
    ensures ProjectClosed(s, p).state.moduleCount >= s.moduleCount
    ensures ProjectOpened(s, p).state == s && ProjectUnbound(s, p).state == s
    ensures BindingSuggestionsDisabled(s, p).state == s && Dispose(s).state == s
  {
  }

  lemma {:induction false} ModulesRemovedValid(s: SyncState, mods: seq<Module>)
    requires Valid(s)
    ensures Valid(ModulesRemoved(s, mods).state)
    decreases |mods|
  {
    if |mods| > 0 {
      var l := ModuleId(s, mods[0]);
      ModuleIdValid(s, mods[0]);
      ValidShrink(l.state, ModuleRemoved(s, mods[0]).state);
      ModulesRemovedValid(ModuleRemoved(s, mods[0]).state, mods[1..]);
    }
  }
}
