/** The records the plugin sends to the analysis backend, and the log of backend calls. */
module BackendApi {
  import opened Wrappers

  datatype Either<+L, +R> = Left(left: L) | Right(right: R)

  datatype SonarQubeConnection = SonarQubeConnection(connectionId: string, serverUrl: string)

  datatype SonarCloudConnection = SonarCloudConnection(connectionId: string, organization: string)

  type ConnectionConfig = Either<SonarQubeConnection, SonarCloudConnection>

  datatype BindingConfig = BindingConfig(
    connectionId: Option<string>,
    sonarProjectKey: Option<string>,
    bindingSuggestionDisabled: bool)

  datatype ConfigScope = ConfigScope(
    id: string,
    parentId: Option<string>,
    bindable: bool,
    name: string,
    binding: BindingConfig)

  /** One call on the backend or one of its services. */
  datatype BackendCall =
    | Initialize(sonarQubeConnections: seq<SonarQubeConnection>, sonarCloudConnections: seq<SonarCloudConnection>)
    | AddConnection(addedConnection: ConnectionConfig)
    | UpdateConnection(updatedConnection: ConnectionConfig)
    | RemoveConnection(removedConnectionId: string)
    | AddScopes(addedScopes: seq<ConfigScope>)
    | RemoveScope(removedId: string)
    | UpdateBinding(configScopeId: string, updatedBinding: BindingConfig)
    | Shutdown

  /** The number of `Initialize` calls in a log. */
  function InitializeCount(log: seq<BackendCall>): (n: nat) {
    if |log| == 0 then 0
    else (if log[0].Initialize? then 1 else 0) + InitializeCount(log[1..])
  }

  lemma {:induction false} InitializeCountAppend(a: seq<BackendCall>, b: seq<BackendCall>)
    ensures InitializeCount(a + b) == InitializeCount(a) + InitializeCount(b)
    decreases |a|
  {
    if |a| == 0 {
      assert a + b == b;
    } else {
      assert (a + b)[1..] == a[1..] + b;
      InitializeCountAppend(a[1..], b);
    }
  }
}
