/**
 The backend's table of configuration scopes as the call log describes it:
 adding a scope stores it under its id, removing a scope drops its id, and a
 binding update replaces the binding of a known scope. This reading of the log
 is what the synchronizer's calls are meant to achieve on the backend side; the
 backend's own implementation is not part of this model.
 */
module BackendScopes {
  import opened BackendApi

  type Scopes = map<string, ConfigScope>

  function AddAll(m: Scopes, scopes: seq<ConfigScope>): (r: Scopes)
    ensures r.Keys == m.Keys + ScopeIds(scopes)
    ensures forall k | k in m && k !in ScopeIds(scopes) :: r[k] == m[k]
    ensures forall k | k in ScopeIds(scopes) :: r[k] in scopes && r[k].id == k
    decreases |scopes|
  {
    if |scopes| == 0 then m
    else
      ScopeIdsCons(scopes);
      AddAll(m[scopes[0].id := scopes[0]], scopes[1..])
  }

  function ScopeIds(scopes: seq<ConfigScope>): (ids: set<string>) {
    set j | 0 <= j < |scopes| :: scopes[j].id
  }

  lemma ScopeIdsCons(scopes: seq<ConfigScope>)
    requires |scopes| > 0
    ensures ScopeIds(scopes) == {scopes[0].id} + ScopeIds(scopes[1..])
  {
    forall k | k in ScopeIds(scopes) ensures k in {scopes[0].id} + ScopeIds(scopes[1..]) {
      var j :| 0 <= j < |scopes| && scopes[j].id == k;
      if j > 0 { assert scopes[1..][j - 1] == scopes[j]; }
    }
    forall k | k in ScopeIds(scopes[1..]) ensures k in ScopeIds(scopes) {
      var j :| 0 <= j < |scopes[1..]| && scopes[1..][j].id == k;
      assert scopes[j + 1] == scopes[1..][j];
    }
  }

  function ApplyCall(m: Scopes, call: BackendCall): (r: Scopes) {
    match call
    case AddScopes(scopes) => AddAll(m, scopes)
    case RemoveScope(id) => m - {id}
    case UpdateBinding(id, b) => if id in m then m[id := m[id].(binding := b)] else m
    case _ => m
  }

  /** The scope table after the calls of `log`, in order, starting from `m`. */
  function Apply(m: Scopes, log: seq<BackendCall>): (r: Scopes)
    decreases |log|
  {
    if |log| == 0 then m else Apply(ApplyCall(m, log[0]), log[1..])
  }

  /** Replaying two logs one after the other is replaying their concatenation. */
  lemma {:induction false} ApplyAppend(m: Scopes, a: seq<BackendCall>, b: seq<BackendCall>)
    ensures Apply(m, a + b) == Apply(Apply(m, a), b)
    decreases |a|
  {
    if |a| == 0 {
      assert a + b == b;
    } else {
      assert (a + b)[0] == a[0];
      assert (a + b)[1..] == a[1..] + b;
      ApplyAppend(ApplyCall(m, a[0]), a[1..], b);
    }
  }

  lemma ApplySingle(m: Scopes, call: BackendCall)
    ensures Apply(m, [call]) == ApplyCall(m, call)
  {
    assert [call][1..] == [];
  }

  // ---------------------------------------------------------------------------
  // Logs that only remove scopes

  predicate OnlyRemovals(log: seq<BackendCall>) {
    forall i | 0 <= i < |log| :: log[i].RemoveScope?
  }

  function RemovedIds(log: seq<BackendCall>): (ids: set<string>)
    requires OnlyRemovals(log)
  {
    set i | 0 <= i < |log| :: log[i].removedId
  }

  lemma RemovedIdsCons(log: seq<BackendCall>)
    requires OnlyRemovals(log) && |log| > 0
    ensures RemovedIds(log) == {log[0].removedId} + RemovedIds(log[1..])
  {
    forall k | k in RemovedIds(log) ensures k in {log[0].removedId} + RemovedIds(log[1..]) {
      var i :| 0 <= i < |log| && log[i].removedId == k;
      if i > 0 { assert log[1..][i - 1] == log[i]; }
    }
    forall k | k in RemovedIds(log[1..]) ensures k in RemovedIds(log) {
      var i :| 0 <= i < |log[1..]| && log[1..][i].removedId == k;
      assert log[i + 1] == log[1..][i];
    }
  }

  /** A log of removals drops exactly the removed ids and leaves every other scope alone. */
  lemma {:induction false} ApplyRemovals(m: Scopes, log: seq<BackendCall>)
    requires OnlyRemovals(log)
    ensures Apply(m, log) == m - RemovedIds(log)
    decreases |log|
  {
    if |log| > 0 {
      RemovedIdsCons(log);
      ApplyRemovals(m - {log[0].removedId}, log[1..]);
    }
  }

  // ---------------------------------------------------------------------------
  // Logs that only add scopes

  predicate OnlyAdds(log: seq<BackendCall>) {
    forall i | 0 <= i < |log| :: log[i].AddScopes?
  }

  /** Every scope added by a log of additions. */
  function AddedScopes(log: seq<BackendCall>): (scopes: set<ConfigScope>)
    requires OnlyAdds(log)
    decreases |log|
  {
    if |log| == 0 then {}
    else (set j | 0 <= j < |log[0].addedScopes| :: log[0].addedScopes[j]) + AddedScopes(log[1..])
  }

  function AddedIds(log: seq<BackendCall>): (ids: set<string>)
    requires OnlyAdds(log)
  {
    set sc | sc in AddedScopes(log) :: sc.id
  }

  /**
   A log of additions adds exactly the added ids, stores under each one of the
   added scopes with that id, and leaves every other scope alone.
   */
  lemma {:induction false} ApplyAdds(m: Scopes, log: seq<BackendCall>)
    requires OnlyAdds(log)
    ensures Apply(m, log).Keys == m.Keys + AddedIds(log)
    ensures forall k | k in m && k !in AddedIds(log) :: Apply(m, log)[k] == m[k]
    ensures forall k | k in AddedIds(log) :: Apply(m, log)[k] in AddedScopes(log) && Apply(m, log)[k].id == k
    decreases |log|
  {
    if |log| > 0 {
      var first := log[0].addedScopes;
      var m1 := AddAll(m, first);
      ApplyAdds(m1, log[1..]);
      AddedIdsCons(log);
      assert AddedIds(log) == ScopeIds(first) + AddedIds(log[1..]);
    }
  }

  lemma AddedIdsCons(log: seq<BackendCall>)
    requires OnlyAdds(log) && |log| > 0
    ensures AddedIds(log) == ScopeIds(log[0].addedScopes) + AddedIds(log[1..])
  {
    var first := log[0].addedScopes;
    var firstSet := set j | 0 <= j < |first| :: first[j];
    assert AddedScopes(log) == firstSet + AddedScopes(log[1..]);
    assert ScopeIds(first) == set sc | sc in firstSet :: sc.id by {
      forall k | k in ScopeIds(first) ensures k in set sc | sc in firstSet :: sc.id {
        var j :| 0 <= j < |first| && first[j].id == k;
        assert first[j] in firstSet;
      }
    }
  }
}
