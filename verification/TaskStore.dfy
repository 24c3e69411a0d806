/** The store of deployments, keyed by task id. */
module TaskStore {
  import opened Protocol

  type DeploymentMap = map<string, Deployment>

  // ---------- Specification ----------

  /** The tasks of an application that are in one of the given states. */
  function Tasks(s: DeploymentMap, appId: string, statuses: set<AppStatus>): set<string> {
    set t | t in s && s[t].appId == appId && s[t].status in statuses
  }

  function Count(s: DeploymentMap, appId: string, statuses: set<AppStatus>): nat {
    |Tasks(s, appId, statuses)|
  }

  predicate Counts(d: Deployment, appId: string, statuses: set<AppStatus>) {
    d.appId == appId && d.status in statuses
  }

  lemma NothingCounted(appId: string, of: set<AppStatus>)
    ensures Count(map[], appId, of) == 0
  {
    assert Tasks(map[], appId, of) == {};
  }

  lemma CountAfterDelete(s: DeploymentMap, t: string, appId: string, statuses: set<AppStatus>)
    ensures Count(s - {t}, appId, statuses) + Indicator(t in s && Counts(s[t], appId, statuses)) ==
            Count(s, appId, statuses)
  {
    assert Tasks(s - {t}, appId, statuses) == Tasks(s, appId, statuses) - {t};
    Separate(Tasks(s, appId, statuses), t);
  }

  /** Saving a deployment changes a count by what it replaces and what it is. */
  lemma CountAfterSave(s: DeploymentMap, t: string, d: Deployment, appId: string, statuses: set<AppStatus>)
    ensures Count(s[t := d], appId, statuses) + Indicator(t in s && Counts(s[t], appId, statuses)) ==
            Count(s, appId, statuses) + Indicator(Counts(d, appId, statuses))
  {
    CountAfterDelete(s, t, appId, statuses);
    CountAfterDelete(s[t := d], t, appId, statuses);
    assert s[t := d] - {t} == s - {t};
  }

  lemma Separate<T>(s: set<T>, x: T)
    ensures |s| == |s - {x}| + Indicator(x in s)
  {
    if x in s { assert s == (s - {x}) + {x}; }
  }

  /** A sequence without repetition that lists exactly a set. */
  ghost predicate Lists<T(!new)>(ks: seq<T>, s: set<T>) {
    && (forall i, j :: 0 <= i < j < |ks| ==> ks[i] != ks[j])
    && (forall x :: x in ks <==> x in s)
  }

  lemma ListGrows<T(!new)>(ks: seq<T>, s: set<T>, x: T)
    requires Lists(ks, s) && x !in s
    ensures Lists(ks + [x], s + {x})
  {
  }

  /** The values listed are those of the keys listed. */
  lemma ListedValue(result: seq<Deployment>, keys: seq<string>, all: set<string>, s: DeploymentMap, d: Deployment)
    requires Lists(keys, all) && |result| == |keys| && all <= s.Keys
    requires forall i :: 0 <= i < |result| ==> keys[i] in s && result[i] == s[keys[i]]
    ensures d in result <==> exists t :: t in all && s[t] == d
  {
    if d in result {
      var i :| 0 <= i < |result| && result[i] == d;
      assert keys[i] in all;
    }
    if t :| t in all && s[t] == d {
      var i :| 0 <= i < |keys| && keys[i] == t;
      assert result[i] == d;
    }
  }

  lemma {:induction false} ListLength<T(!new)>(ks: seq<T>, s: set<T>)
    requires Lists(ks, s)
    ensures |ks| == |s|
    decreases |ks|
  {
    if ks == [] {
      assert s == {};
    } else {
      var x, rest := ks[|ks| - 1], ks[..|ks| - 1];
      assert ks == rest + [x];
      assert Lists(rest, s - {x});
      ListLength(rest, s - {x});
      Separate(s, x);
    }
  }

  // ---------- The store ----------

  class DefaultTaskStore {
    var store: DeploymentMap

    constructor ()
      ensures store == map[]
    {
      store := map[];
    }

    /** A missing deployment reads as an error: its required fields are not set. */
    method Get(key: string) returns (r: Option<Deployment>)
      ensures r == if key in store then Some(store[key]) else None
    {
      r := if key in store then Some(store[key]) else None;
    }

    method Save(value: Deployment)
      modifies this
      ensures store == old(store)[value.taskId := value]
    {
      store := store[value.taskId := value];
    }

    method Delete(key: string)
      modifies this
      ensures store == old(store) - {key}
    {
      store := store - {key};
    }

    /** All matching deployments, in the arbitrary order of the map. */
    method Filter(matches: Deployment -> bool) returns (result: seq<Deployment>, ghost keys: seq<string>)
      ensures Lists(keys, set t | t in store && matches(store[t]))
      ensures |result| == |keys| && forall i :: 0 <= i < |result| ==> keys[i] in store && result[i] == store[keys[i]]
      ensures |result| == |set t | t in store && matches(store[t])|
      ensures forall d :: d in result <==> exists t :: t in store && matches(store[t]) && store[t] == d
    {
      result, keys := [], [];
      var todo := store.Keys;
      while todo != {}
        invariant todo <= store.Keys
        invariant Lists(keys, set t | t in store && t !in todo && matches(store[t]))
        invariant |result| == |keys|
        invariant forall i :: 0 <= i < |result| ==> keys[i] in store && result[i] == store[keys[i]]
        decreases todo
      {
        var t :| t in todo;
        ghost var done := set t | t in store && t !in todo && matches(store[t]);
        todo := todo - {t};
        ghost var more := set t | t in store && t !in todo && matches(store[t]);
        if matches(store[t]) {
          ListGrows(keys, done, t);
          assert more == done + {t};
          result := result + [store[t]];
          keys := keys + [t];
        } else {
          assert more == done;
        }
      }
      ghost var all := set t | t in store && matches(store[t]);
      ListLength(keys, all);
      forall d
        ensures d in result <==> exists t :: t in store && matches(store[t]) && store[t] == d
      {
        ListedValue(result, keys, all, store, d);
      }
    }

    method RunningApps(appId: string) returns (result: seq<Deployment>, ghost keys: seq<string>)
      ensures Lists(keys, Tasks(store, appId, {STARTED}))
      ensures |result| == |keys| && forall i :: 0 <= i < |result| ==> keys[i] in store && result[i] == store[keys[i]]
      ensures |result| == Count(store, appId, {STARTED})
      ensures forall d :: d in result ==> d.appId == appId && d.status == STARTED
    {
      result, keys := Filter((d: Deployment) => d.appId == appId && d.status == STARTED);
      ListLength(keys, Tasks(store, appId, {STARTED}));
    }

    method RunningAppsCount(appId: string) returns (n: nat)
      ensures n == Count(store, appId, {STARTED})
    {
      var a, keys := RunningApps(appId);
      n := |a|;
    }
  }
}
