/**
 The parts of the IDE's project model that the backend synchronizer reads,
 reduced to plain values. Everything the synchronizer asks the IDE for
 (project file path, module list, stored binding, per-module key, the
 binding-suggestion setting) is a field here.
 */
module Host {
  import opened Wrappers

  /** The identity of a module object; the plugin keys its id cache on it. */
  type ModuleRef = nat

  /** A module: its identity, its display name and the project key configured for it, if any. */
  datatype Module = Module(ref: ModuleRef, name: string, configuredProjectKey: Option<string>)

  /** A module-specific project key override of a project binding. */
  datatype ModuleOverride = ModuleOverride(overridden: Module, projectKey: string)

  /** A project bound to a remote project of a named connection. */
  datatype ProjectBinding = ProjectBinding(
    connectionName: string,
    projectKey: string,
    moduleOverrides: seq<ModuleOverride>)

  datatype Project = Project(
    projectFilePath: Option<string>,
    name: string,
    modules: seq<Module>,
    binding: Option<ProjectBinding>,
    bindingSuggestionsEnabled: bool)

  /**
   A configured server connection. Whether it is a SonarCloud connection is
   decided by the settings code, which is not part of this model, so it is
   carried as a flag; the organization key is only set for SonarCloud.
   */
  datatype ServerConnection = ServerConnection(
    name: string,
    hostUrl: string,
    organizationKey: Option<string>,
    isSonarCloud: bool)

  /** What the conversion to the backend's SonarCloud record relies on. */
  predicate HasOrganizationWhenCloud(c: ServerConnection) {
    c.isSonarCloud ==> c.organizationKey.Some?
  }

  /** The set of module identities appearing in `mods`. */
  function Refs(mods: seq<Module>): (refs: set<ModuleRef>) {
    set i | 0 <= i < |mods| :: mods[i].ref
  }

  lemma RefsCons(mods: seq<Module>)
    requires |mods| > 0
    ensures Refs(mods) == {mods[0].ref} + Refs(mods[1..])
  {
    forall x | x in Refs(mods) ensures x in {mods[0].ref} + Refs(mods[1..]) {
      var i :| 0 <= i < |mods| && mods[i].ref == x;
      if i > 0 { assert mods[1..][i - 1] == mods[i]; }
    }
    forall x | x in Refs(mods[1..]) ensures x in Refs(mods) {
      var i :| 0 <= i < |mods[1..]| && mods[1..][i].ref == x;
      assert mods[i + 1] == mods[1..][i];
    }
  }

  /** The set of module identities that `overrides` override. */
  function OverrideRefs(overrides: seq<ModuleOverride>): (refs: set<ModuleRef>) {
    set i | 0 <= i < |overrides| :: overrides[i].overridden.ref
  }

  lemma OverrideRefsCons(overrides: seq<ModuleOverride>)
    requires |overrides| > 0
    ensures OverrideRefs(overrides) == {overrides[0].overridden.ref} + OverrideRefs(overrides[1..])
  {
    forall x | x in OverrideRefs(overrides) ensures x in {overrides[0].overridden.ref} + OverrideRefs(overrides[1..]) {
      var i :| 0 <= i < |overrides| && overrides[i].overridden.ref == x;
      if i > 0 { assert overrides[1..][i - 1] == overrides[i]; }
    }
    forall x | x in OverrideRefs(overrides[1..]) ensures x in OverrideRefs(overrides) {
      var i :| 0 <= i < |overrides[1..]| && overrides[1..][i].overridden.ref == x;
      assert overrides[i + 1] == overrides[1..][i];
    }
  }

  /** No module object appears twice in `mods`. */
  predicate DistinctRefs(mods: seq<Module>) {
    forall i, j | 0 <= i < j < |mods| :: mods[i].ref != mods[j].ref
  }
}
