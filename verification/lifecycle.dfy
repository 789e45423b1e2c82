/**
 What the synchronizer's call logs do to the backend's scope table, across
 the life of a project: opening, binding, suggestion changes, modules coming
 and going, and closing.
 */
module Lifecycle {
  import opened Wrappers
  import opened Host
  import opened BackendApi
  import opened Decimal
  import opened ModuleIds
  import opened BackendService
  import opened BackendScopes

  /** The host adding the modules of `p` one after the other. */
  function ModulesAdded(s: SyncState, p: Project, mods: seq<Module>): (r: Step)
    decreases |mods|
  {
    if |mods| == 0 then Step(s, [])
    else
      var first := ModuleAdded(s, p, mods[0]);
      var rest := ModulesAdded(first.state, p, mods[1..]);
      Step(rest.state, first.calls + rest.calls)
  }

  /** Adding modules only ever extends the id cache. */
  lemma {:induction false} ModulesAddedCache(s: SyncState, p: Project, mods: seq<Module>)
    ensures var r := ModulesAdded(s, p, mods);
            && r.state.moduleIds.Keys == s.moduleIds.Keys + Refs(mods)
            && (forall x | x in s.moduleIds :: r.state.moduleIds[x] == s.moduleIds[x])
    decreases |mods|
  {
    if |mods| > 0 {
      var first := ModuleAdded(s, p, mods[0]);
      ModulesAddedCache(first.state, p, mods[1..]);
      RefsCons(mods);
      if mods[0].ref in s.moduleIds {
        assert first.state == s;
      }
    }
  }

  lemma {:induction false} ModulesAddedValid(s: SyncState, p: Project, mods: seq<Module>)
    requires Valid(s)
    ensures Valid(ModulesAdded(s, p, mods).state)
    decreases |mods|
  {
    if |mods| > 0 {
      ModuleIdValid(s, mods[0]);
      ModulesAddedValid(ModuleAdded(s, p, mods[0]).state, p, mods[1..]);
    }
  }

  /** One single-scope addition per module, under the project, with the id the cache ends up holding. */
  lemma {:induction false} ModulesAddedCalls(s: SyncState, p: Project, mods: seq<Module>)
    ensures var r := ModulesAdded(s, p, mods);
            && |r.calls| == |mods|
            && OnlyAdds(r.calls)
            && forall i | 0 <= i < |mods| ::
                 && |r.calls[i].addedScopes| == 1
                 && r.calls[i].addedScopes[0].parentId == Some(ProjectId(p))
                 && mods[i].ref in r.state.moduleIds
                 && r.calls[i].addedScopes[0].id == r.state.moduleIds[mods[i].ref]
    decreases |mods|
  {
    if |mods| > 0 {
      var r := ModulesAdded(s, p, mods);
      var first := ModuleAdded(s, p, mods[0]);
      var rest := ModulesAdded(first.state, p, mods[1..]);
      ModulesAddedCalls(first.state, p, mods[1..]);
      ModulesAddedCache(first.state, p, mods[1..]);
      assert r.calls == first.calls + rest.calls;
      forall i | 0 <= i < |mods|
        ensures r.calls[i].AddScopes? && |r.calls[i].addedScopes| == 1
        ensures r.calls[i].addedScopes[0].parentId == Some(ProjectId(p))
        ensures mods[i].ref in r.state.moduleIds
        ensures r.calls[i].addedScopes[0].id == r.state.moduleIds[mods[i].ref]
      {
        if i == 0 {
          assert r.calls[0] == first.calls[0];
          assert mods[0].ref in first.state.moduleIds;
        } else {
          assert r.calls[i] == rest.calls[i - 1];
          assert mods[i] == mods[1..][i - 1];
        }
      }
    }
  }

  /** The ids the cache of `s` holds for the modules `mods`. */
  function ModuleScopeIds(s: SyncState, mods: seq<Module>): (ids: set<string>) {
    set i | 0 <= i < |mods| && mods[i].ref in s.moduleIds :: s.moduleIds[mods[i].ref]
  }

  /** Opening a project stores its scope, parentless and carrying the stored binding, and touches nothing else. */
  lemma OpenRegistersProjectScope(s: SyncState, p: Project, m: Scopes)
    ensures var after := Apply(m, ProjectOpened(s, p).calls);
            && after.Keys == m.Keys + {ProjectId(p)}
            && after[ProjectId(p)].parentId.None?
            && after[ProjectId(p)].binding == StoredBinding(p)
            && forall k | k in m && k != ProjectId(p) :: after[k] == m[k]
  {
    var call := ProjectOpened(s, p).calls[0];
    ApplySingle(m, call);
    assert ScopeIds(call.addedScopes) == {ProjectId(p)};
  }

  /** Unbinding leaves the project's scope in place with no connection, no key and its own suggestion setting. */
  lemma UnbindClearsProjectScope(s: SyncState, p: Project, m: Scopes)
    requires ProjectId(p) in m
    ensures Apply(m, ProjectUnbound(s, p).calls) ==
              m[ProjectId(p) := m[ProjectId(p)].(binding := BindingConfig(None, None, !p.bindingSuggestionsEnabled))]
  {
    ApplySingle(m, ProjectUnbound(s, p).calls[0]);
  }

  /**
   When the backend already knows the project's stored binding, disabling
   suggestions changes nothing but the suggestion flag of the project's scope.
   */
  lemma SuggestionsDisabledOnlySetsFlag(s: SyncState, p: Project, m: Scopes)
    requires ProjectId(p) in m
    requires m[ProjectId(p)].binding.connectionId == StoredBinding(p).connectionId
    requires m[ProjectId(p)].binding.sonarProjectKey == StoredBinding(p).sonarProjectKey
    ensures var pid := ProjectId(p);
            Apply(m, BindingSuggestionsDisabled(s, p).calls) ==
              m[pid := m[pid].(binding := m[pid].binding.(bindingSuggestionDisabled := true))]
  {
    ApplySingle(m, BindingSuggestionsDisabled(s, p).calls[0]);
  }

  lemma UpdateThenRemove<K, V>(m: map<K, V>, k: K, v: V)
    ensures m[k := v] - {k} == m - {k}
  {
  }

  /**
   Adding a module stores its scope under the project's scope; removing it
   again restores both the backend's table and the id cache.
   */
  lemma ModuleAddRemoveRoundTrip(s: SyncState, p: Project, mod: Module, m: Scopes)
    requires mod.ref !in s.moduleIds
    ensures var added := ModuleAdded(s, p, mod);
            var removed := ModuleRemoved(added.state, mod);
            var id := added.calls[0].addedScopes[0].id;
            && removed.calls == [RemoveScope(id)]
            && id in Apply(m, added.calls)
            && Apply(m, added.calls)[id].parentId == Some(ProjectId(p))
            && Apply(Apply(m, added.calls), removed.calls) == m - {id}
            && removed.state.moduleIds == s.moduleIds
  {
    var added := ModuleAdded(s, p, mod);
    var removed := ModuleRemoved(added.state, mod);
    var scope := added.calls[0].addedScopes[0];
    assert added.calls == [AddScopes([scope])];
    assert removed.calls == [RemoveScope(scope.id)];
    AddThenRemove(m, scope, added.calls, removed.calls);
    UpdateThenRemove(s.moduleIds, mod.ref, scope.id);
  }

  lemma AddThenRemove(m: Scopes, scope: ConfigScope, addCalls: seq<BackendCall>, removeCalls: seq<BackendCall>)
    requires addCalls == [AddScopes([scope])]
    requires removeCalls == [RemoveScope(scope.id)]
    ensures Apply(m, addCalls) == m[scope.id := scope]
    ensures Apply(Apply(m, addCalls), removeCalls) == m - {scope.id}
  {
    ApplySingle(m, addCalls[0]);
    assert [scope][1..] == [];
    ApplySingle(m[scope.id := scope], removeCalls[0]);
    UpdateThenRemove(m, scope.id, scope);
  }

  /**
   Opening a project and adding its modules gives a scope tree: the project's
   scope has no parent and each module's scope has the project's scope as its
   parent. The project path must not look like a minted module id.
   */
  lemma OpenedProjectScopeTree(s: SyncState, p: Project, m: Scopes)
    requires Valid(s)
    requires CounterOf(ProjectId(p)).None?
    ensures var onOpen := ProjectOpened(s, p);
            var added := ModulesAdded(onOpen.state, p, p.modules);
            var tree := Apply(m, onOpen.calls + added.calls);
            && ProjectId(p) in tree
            && tree[ProjectId(p)].parentId.None?
            && forall i | 0 <= i < |p.modules| ::
                 && p.modules[i].ref in added.state.moduleIds
                 && added.state.moduleIds[p.modules[i].ref] in tree
                 && tree[added.state.moduleIds[p.modules[i].ref]].parentId == Some(ProjectId(p))
  {
    var pid := ProjectId(p);
    var onOpen := ProjectOpened(s, p);
    var added := ModulesAdded(onOpen.state, p, p.modules);
    OpenRegistersProjectScope(s, p, m);
    ModulesAddedCalls(onOpen.state, p, p.modules);
    var m1 := Apply(m, onOpen.calls);
    ApplyAppend(m, onOpen.calls, added.calls);
    ApplyAdds(m1, added.calls);
    var tree := Apply(m1, added.calls);
    assert pid !in AddedIds(added.calls) by {
      forall sc | sc in AddedScopes(added.calls) ensures sc.id != pid {
        ModulesAddedScopes(onOpen.state, p, p.modules, sc);
      }
    }
    forall i | 0 <= i < |p.modules|
      ensures p.modules[i].ref in added.state.moduleIds
      ensures added.state.moduleIds[p.modules[i].ref] in tree
      ensures tree[added.state.moduleIds[p.modules[i].ref]].parentId == Some(pid)
    {
      var sc := added.calls[i].addedScopes[0];
      AddedScopesContains(added.calls, i, 0);
      var id := added.state.moduleIds[p.modules[i].ref];
      assert sc.id == id;
      ModulesAddedScopes(onOpen.state, p, p.modules, tree[id]);
    }
  }

  /**
   Project and module scope ids share one namespace: a project whose file
   path happens to read `app-1` has the id the first module called `app`
   receives. The default project id can never be a minted id.
   */
  lemma SharedIdNamespace()
    ensures var p := Project(Some("app-1"), "app", [], None, true);
            var m := Module(0, "app", None);
            ModuleId(InitialState, m).id == ProjectId(p)
    ensures CounterOf(DefaultProjectId).None?
  {
    assert NatToString(1) == "1";
  }

  /** Every scope the modules' additions carry has the project as parent and a minted id. */
  lemma ModulesAddedScopes(s: SyncState, p: Project, mods: seq<Module>, sc: ConfigScope)
    requires Valid(s)
    requires OnlyAdds(ModulesAdded(s, p, mods).calls)
    requires sc in AddedScopes(ModulesAdded(s, p, mods).calls)
    ensures sc.parentId == Some(ProjectId(p))
    ensures CounterOf(sc.id).Some?
  {
    var r := ModulesAdded(s, p, mods);
    ModulesAddedCalls(s, p, mods);
    ModulesAddedValid(s, p, mods);
    var i, j := AddedScopesMember(r.calls, sc);
    assert j == 0;
    assert sc.id == r.state.moduleIds[mods[i].ref];
  }

  lemma {:induction false} AddedScopesMember(log: seq<BackendCall>, sc: ConfigScope) returns (i: nat, j: nat)
    requires OnlyAdds(log)
    requires sc in AddedScopes(log)
    ensures i < |log| && j < |log[i].addedScopes| && log[i].addedScopes[j] == sc
    decreases |log|
  {
    if sc in set k | 0 <= k < |log[0].addedScopes| :: log[0].addedScopes[k] {
      i := 0;
      j :| 0 <= j < |log[0].addedScopes| && log[0].addedScopes[j] == sc;
    } else {
      var i', j' := AddedScopesMember(log[1..], sc);
      i, j := i' + 1, j';
    }
  }

  lemma {:induction false} AddedScopesContains(log: seq<BackendCall>, i: nat, j: nat)
    requires OnlyAdds(log)
    requires i < |log| && j < |log[i].addedScopes|
    ensures log[i].addedScopes[j] in AddedScopes(log)
    ensures log[i].addedScopes[j].id in AddedIds(log)
    decreases i
  {
    if i > 0 {
      AddedScopesContains(log[1..], i - 1, j);
      assert log[1..][i - 1] == log[i];
    }
  }

  /**
   Opening a project, adding its modules and closing it again leaves the
   backend's scope table as it was, minus the ids the project used, and the id
   cache as it was.
   */
  lemma ProjectLifecycleRoundTrip(s: SyncState, p: Project, m: Scopes)
    requires DistinctRefs(p.modules)
    requires forall i | 0 <= i < |p.modules| :: p.modules[i].ref !in s.moduleIds
    ensures var onOpen := ProjectOpened(s, p);
            var added := ModulesAdded(onOpen.state, p, p.modules);
            var closed := ProjectClosed(added.state, p);
            && closed.state.moduleIds == s.moduleIds
            && Apply(m, onOpen.calls + added.calls + closed.calls) ==
                 m - ({ProjectId(p)} + ModuleScopeIds(added.state, p.modules))
    ensures var onOpen := ProjectOpened(s, p);
            var added := ModulesAdded(onOpen.state, p, p.modules);
            var closed := ProjectClosed(added.state, p);
            Apply(map[], onOpen.calls + added.calls + closed.calls) == map[]
  {
    var pid := ProjectId(p);
    var onOpen := ProjectOpened(s, p);
    var added := ModulesAdded(onOpen.state, p, p.modules);
    var closed := ProjectClosed(added.state, p);
    assert closed.state.moduleIds == s.moduleIds by {
      ModulesAddedCache(onOpen.state, p, p.modules);
      assert Refs(p.modules) !! s.moduleIds.Keys;
    }
    LifecycleScopes(s, p, m);
    LifecycleScopes(s, p, map[]);
  }

  /** The ids the modules' additions add are the ids the cache holds for the modules. */
  lemma ModulesAddedIds(s: SyncState, p: Project, mods: seq<Module>)
    ensures OnlyAdds(ModulesAdded(s, p, mods).calls)
    ensures var r := ModulesAdded(s, p, mods);
            AddedIds(r.calls) == ModuleScopeIds(r.state, mods)
  {
    var r := ModulesAdded(s, p, mods);
    ModulesAddedCalls(s, p, mods);
    SingleAddsIds(r.calls, r.state.moduleIds, mods);
  }

  /** A log of one single-scope addition per module, each under the module's id in `ids`, adds exactly those ids. */
  lemma SingleAddsIds(log: seq<BackendCall>, ids: map<ModuleRef, string>, mods: seq<Module>)
    requires |log| == |mods| && OnlyAdds(log)
    requires forall i | 0 <= i < |mods| ::
               && |log[i].addedScopes| == 1
               && mods[i].ref in ids
               && log[i].addedScopes[0].id == ids[mods[i].ref]
    ensures AddedIds(log) == set i | 0 <= i < |mods| && mods[i].ref in ids :: ids[mods[i].ref]
  {
    forall k | k in (set i | 0 <= i < |mods| && mods[i].ref in ids :: ids[mods[i].ref]) ensures k in AddedIds(log) {
      var i :| 0 <= i < |mods| && mods[i].ref in ids && ids[mods[i].ref] == k;
      AddedScopesContains(log, i, 0);
    }
    forall k | k in AddedIds(log) ensures k in set i | 0 <= i < |mods| && mods[i].ref in ids :: ids[mods[i].ref] {
      var sc :| sc in AddedScopes(log) && sc.id == k;
      var i, j := AddedScopesMember(log, sc);
    }
  }

  /** Closing a project whose modules are all cached removes exactly their ids and the project's. */
  lemma ClosedRemovedIds(s: SyncState, p: Project)
    requires DistinctRefs(p.modules)
    requires forall i | 0 <= i < |p.modules| :: p.modules[i].ref in s.moduleIds
    ensures OnlyRemovals(ProjectClosed(s, p).calls)
    ensures RemovedIds(ProjectClosed(s, p).calls) == ModuleScopeIds(s, p.modules) + {ProjectId(p)}
  {
    var closed := ProjectClosed(s, p);
    var ids := ModuleScopeIds(s, p.modules);
    forall k | k in ids ensures k in RemovedIds(closed.calls) {
      var i :| 0 <= i < |p.modules| && p.modules[i].ref in s.moduleIds && s.moduleIds[p.modules[i].ref] == k;
      assert closed.calls[i].removedId == k;
    }
    assert closed.calls[|p.modules|].removedId == ProjectId(p);
    forall k | k in RemovedIds(closed.calls) ensures k in ids + {ProjectId(p)} {
      var i :| 0 <= i < |closed.calls| && closed.calls[i].removedId == k;
      if i < |p.modules| {
        assert closed.calls[i].removedId == s.moduleIds[p.modules[i].ref];
      }
    }
  }

  /** Replacing one key, adding others and then removing all of them leaves only the untouched keys. */
  lemma ReplaceAddRemove(m: Scopes, m1: Scopes, m2: Scopes, pid: string, ids: set<string>)
    requires m1.Keys == m.Keys + {pid}
    requires forall k | k in m && k != pid :: m1[k] == m[k]
    requires m2.Keys == m1.Keys + ids
    requires forall k | k in m1 && k !in ids :: m2[k] == m1[k]
    ensures m2 - (ids + {pid}) == m - ({pid} + ids)
  {
  }

  lemma LifecycleScopes(s: SyncState, p: Project, m: Scopes)
    requires DistinctRefs(p.modules)
    ensures var onOpen := ProjectOpened(s, p);
            var added := ModulesAdded(onOpen.state, p, p.modules);
            var closed := ProjectClosed(added.state, p);
            Apply(m, onOpen.calls + added.calls + closed.calls) ==
              m - ({ProjectId(p)} + ModuleScopeIds(added.state, p.modules))
  {
    var pid := ProjectId(p);
    var onOpen := ProjectOpened(s, p);
    var added := ModulesAdded(onOpen.state, p, p.modules);
    var closed := ProjectClosed(added.state, p);
    var ids := ModuleScopeIds(added.state, p.modules);
    OpenRegistersProjectScope(s, p, m);
    var m1 := Apply(m, onOpen.calls);
    ModulesAddedIds(onOpen.state, p, p.modules);
    ApplyAdds(m1, added.calls);
    var m2 := Apply(m1, added.calls);
    ModulesAddedCalls(onOpen.state, p, p.modules);
    ClosedRemovedIds(added.state, p);
    ApplyRemovals(m2, closed.calls);
    ReplaceAddRemove(m, m1, m2, pid, ids);
    ApplyAppend(m, onOpen.calls, added.calls);
    ApplyAppend(m, onOpen.calls + added.calls, closed.calls);
  }
}
