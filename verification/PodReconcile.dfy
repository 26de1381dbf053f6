/** `PodControl.Reconcile` as a whole: list, diff, scale, then roll out (internal/fullnode/pod_control.go). */
module PodReconcile {
  import opened Common
  import opened Rollout
  import opened Diff
  import opened PodControl
  import opened RollingUpdate

  // ----- a round that asks for no other has deleted every outdated pod

  lemma DistinctConcat(a: seq<Key>, b: seq<Key>, m: nat)
    requires Distinct(a) && Distinct(b) && m <= |b| && forall k :: k in a ==> k !in b
    ensures Distinct(a + b[..m])
  {
    assert forall i :: 0 <= i < |a| ==> a[i] in a;
    assert forall i :: 0 <= i < m ==> b[i] in b;
  }

  /** Bypassed and budgeted pods are different pods, not terminating, each with an update. */
  lemma PicksApart(pods: seq<Pod>, updates: seq<Pod>, sync: SyncMap)
    requires UniqueKeys(pods)
    ensures var a, b := Pick(BypassPod, pods, updates, sync), Pick(BudgetedPod, pods, updates, sync);
      && (forall k :: k in a ==> k !in b)
      && (forall k :: k in a || k in b ==> HasKey(updates, k) && exists p :: p in pods && p.key == k && !p.body.terminating)
  {
  }

  lemma PlanIsSound(pods: seq<Pod>, updates: seq<Pod>, sync: SyncMap, replicas: nat, maxUnavail: Option<IntOrPercent>)
    requires UniqueKeys(pods)
    ensures Distinct(Plan(pods, updates, sync, replicas, maxUnavail))
    ensures forall k :: k in Plan(pods, updates, sync, replicas, maxUnavail) ==>
      HasKey(updates, k) && exists p :: p in pods && p.key == k && !p.body.terminating
  {
    var a, b := Pick(BypassPod, pods, updates, sync), Pick(BudgetedPod, pods, updates, sync);
    PickDistinct(BypassPod, pods, updates, sync);
    PickDistinct(BudgetedPod, pods, updates, sync);
    PicksApart(pods, updates, sync);
    var n := Budget(pods, sync, replicas, maxUnavail);
    if |a| < n {
      DistinctConcat(a, b, Min(|b|, n - |a|));
    }
  }

  lemma FullSubset(a: set<Key>, b: set<Key>)
    requires a <= b && |a| == |b|
    ensures a == b
  {
    assert |b - a| == |b| - |a|;
  }

  /** As many planned as outdated means all outdated are planned. */
  lemma PlanCovers(pods: seq<Pod>, updates: seq<Pod>, sync: SyncMap, replicas: nat, maxUnavail: Option<IntOrPercent>)
    requires UniqueKeys(pods) && UniqueKeys(updates)
    ensures |Plan(pods, updates, sync, replicas, maxUnavail)| <= |updates|
    ensures |Plan(pods, updates, sync, replicas, maxUnavail)| == |updates| <==>
      forall u :: u in updates ==> u.key in Plan(pods, updates, sync, replicas, maxUnavail)
  {
    var plan, names := Plan(pods, updates, sync, replicas, maxUnavail), KeysOf(updates);
    PlanIsSound(pods, updates, sync, replicas, maxUnavail);
    KeysOfUnique(updates);
    DistinctSize(plan);
    DistinctSize(names);
    var planned, all := set k | k in plan, set k | k in names;
    assert planned <= all;
    assert |all - planned| == |all| - |planned|;
    if |planned| == |all| {
      FullSubset(planned, all);
      assert forall u :: u in updates ==> u.key in all;
    } else {
      assert exists k :: k in all - planned;
    }
  }

  // ----- the reconcile

  /** Listed pods stay where they are, perhaps terminating; anything new is wanted and was missing. */
  ghost predicate Evolved(pods: seq<Pod>, pods': seq<Pod>, want: seq<Pod>) {
    && |pods| <= |pods'| && UniqueKeys(pods')
    && (forall i :: 0 <= i < |pods| ==> pods'[i] == pods[i] || pods'[i] == Dying(pods[i]))
    && (forall i :: |pods| <= i < |pods'| ==> pods'[i] in want && !HasKey(pods, pods'[i].key))
  }

  /** Nothing left to start: exactly the wanted names, each current or on its way out. */
  ghost predicate Settled(pods: seq<Pod>, want: seq<Pod>) {
    && (forall p :: p in pods ==> HasKey(want, p.key))
    && (forall w :: w in want ==> exists p :: p in pods && p.key == w.key && (p.revision == w.revision || p.body.terminating))
  }

  lemma CreatedEvolves(pods: seq<Pod>, pods': seq<Pod>, want: seq<Pod>, p: Pod)
    requires Evolved(pods, pods', want) && p in want && !HasKey(pods', p.key)
    requires forall i :: 0 <= i < |pods| ==> pods'[i] == pods[i]
    ensures Evolved(pods, pods' + [p], want)
  {
  }

  /** The creation loop; it stops at the first failing call. */
  method CreateAll(cluster: Cluster, creates: seq<Pod>, ghost want: seq<Pod>) returns (failed: bool)
    requires UniqueKeys(cluster.pods)
    requires forall p :: p in creates ==> p in want
    modifies cluster
    ensures Evolved(old(cluster.pods), cluster.pods, want)
    ensures forall i :: 0 <= i < |old(cluster.pods)| ==> cluster.pods[i] == old(cluster.pods)[i]
    ensures creates == [] ==> cluster.pods == old(cluster.pods)
    ensures cluster.errors == old(cluster.errors) + if failed then 1 else 0
    ensures !failed ==> forall p :: p in creates ==> HasKey(cluster.pods, p.key)
  {
    failed := false;
    for i := 0 to |creates|
      invariant !failed && cluster.errors == old(cluster.errors)
      invariant forall k :: 0 <= k < i ==> HasKey(cluster.pods, creates[k].key)
      invariant Evolved(old(cluster.pods), cluster.pods, want)
      invariant forall i :: 0 <= i < |old(cluster.pods)| ==> cluster.pods[i] == old(cluster.pods)[i]
      invariant i == 0 ==> cluster.pods == old(cluster.pods)
    {
      label Before:
      failed := cluster.Create(creates[i]);
      if cluster.pods != old@Before(cluster.pods) {
        CreatedEvolves(old(cluster.pods), old@Before(cluster.pods), want, creates[i]);
      }
      if failed {
        return;
      }
    }
  }

  /** The deletion loop of the scale phase, which also drops the pods from the status map. */
  method DeleteAll(cluster: Cluster, deletes: seq<Pod>, info: SyncInfo) returns (failed: bool, ghost gone: seq<Key>)
    modifies cluster, info
    ensures cluster.pods == TerminateAll(old(cluster.pods), gone)
    ensures forall k :: k in gone ==> HasKey(deletes, k)
    ensures cluster.errors == old(cluster.errors) + if failed then 1 else 0
    ensures !failed ==> gone == KeysOf(deletes)
    ensures forall k :: k in info.entries ==> k in old(info.entries) && info.entries[k] == old(info.entries)[k]
    ensures !failed ==> forall k :: k in info.entries <==> k in old(info.entries) && k !in gone
    ensures deletes == [] ==> info.entries == old(info.entries)
  {
    failed, gone := false, [];
    for i := 0 to |deletes|
      invariant !failed && cluster.errors == old(cluster.errors)
      invariant cluster.pods == TerminateAll(old(cluster.pods), gone) && gone == KeysOf(deletes[..i])
      invariant forall k :: k in gone ==> HasKey(deletes, k)
      invariant forall k :: k in info.entries <==> k in old(info.entries) && k !in gone
      invariant forall k :: k in info.entries ==> info.entries[k] == old(info.entries)[k]
    {
      var key := deletes[i].key;
      assert deletes[i] in deletes;
      assert deletes[..i + 1][..i] == deletes[..i];
      TerminateAllSnoc(old(cluster.pods), gone, key);
      failed := cluster.Delete(key);
      if failed {
        gone := if cluster.pods == TerminateAll(old(cluster.pods), gone) then gone else gone + [key];
        return;
      }
      gone := gone + [key];
      info.entries := info.entries - {key};
    }
    assert deletes[..|deletes|] == deletes;
  }

  lemma TerminatedEvolves(pods: seq<Pod>, pods': seq<Pod>, want: seq<Pod>, gone: seq<Key>)
    requires UniqueKeys(pods) && Evolved(pods, pods', want)
    requires forall i :: 0 <= i < |pods| ==> pods'[i] == pods[i]
    requires forall i :: |pods| <= i < |pods'| ==> pods'[i].key !in gone
    ensures Evolved(pods, TerminateAll(pods', gone), want)
  {
    TerminateAllKeys(pods', gone);
  }

  /** After a round that covered every outdated pod, the cluster is settled. */
  lemma CoveredIsSettled(pods: seq<Pod>, want: seq<Pod>, d: Diff<PodBody>, plan: seq<Key>)
    requires UniqueKeys(pods) && UniqueKeys(want) && IsDiff(d, pods, want) && d.creates == [] && d.deletes == []
    requires forall u :: u in d.updates ==> u.key in plan
    ensures Settled(TerminateAll(pods, plan), want)
  {
    var after := TerminateAll(pods, plan);
    TerminateAllKeys(pods, plan);
    forall p | p in after ensures HasKey(want, p.key) {
      var i :| 0 <= i < |after| && after[i] == p;
      assert pods[i] in pods && pods[i] !in d.deletes;
    }
    forall w | w in want ensures exists p :: p in after && p.key == w.key && (p.revision == w.revision || p.body.terminating) {
      assert w !in d.creates;
      var c :| c in pods && c.key == w.key;
      var i :| 0 <= i < |pods| && pods[i] == c;
      assert after[i] in after;
      if c.revision != w.revision {
        assert Outdated(w, pods);
        assert w in d.updates;
      }
    }
  }

  /** Every missing pod is there, every surplus pod is terminating, and the surplus ones have no status entry. */
  ghost predicate Scaled(pods: seq<Pod>, sync: SyncMap, d: Diff<PodBody>, pods': seq<Pod>, sync': SyncMap) {
    && |pods| <= |pods'|
    && (forall p :: p in d.creates ==> HasKey(pods', p.key))
    && (forall i :: 0 <= i < |pods| && pods[i] in d.deletes ==> pods'[i] == Dying(pods[i]))
    && (forall k :: k in sync' <==> k in sync && !HasKey(d.deletes, k)) && (forall k :: k in sync' ==> sync'[k] == sync[k])
  }

  /** The scale phase: creations, then deletions. It leaves every wanted pod alone and, without an error, does it all. */
  method Scale(cluster: Cluster, want: seq<Pod>, d: Diff<PodBody>, info: SyncInfo) returns (failed: bool)
    requires UniqueKeys(cluster.pods) && IsDiff(d, cluster.pods, want)
    modifies cluster, info
    ensures Evolved(old(cluster.pods), cluster.pods, want)
    ensures forall i :: 0 <= i < |old(cluster.pods)| && HasKey(want, old(cluster.pods)[i].key) ==>
      cluster.pods[i] == old(cluster.pods)[i]
    ensures cluster.errors == old(cluster.errors) + if failed then 1 else 0
    ensures !failed ==> Scaled(old(cluster.pods), old(info.entries), d, cluster.pods, info.entries)
    ensures d.creates == [] && d.deletes == [] ==> cluster.pods == old(cluster.pods) && info.entries == old(info.entries)
  {
    ghost var pods := cluster.pods;
    failed := CreateAll(cluster, d.creates, want);
    if failed {
      return;
    }
    ghost var created := cluster.pods;
    ghost var gone;
    failed, gone := DeleteAll(cluster, d.deletes, info);
    assert forall k :: k in gone ==> !HasKey(want, k);
    TerminateAllKeys(created, gone);
    TerminatedEvolves(pods, created, want, gone);
    KeysOfUnique(d.deletes);
    assert d.deletes == [] ==> gone == [] by {
      assert gone != [] ==> HasKey(d.deletes, gone[0]);
    }
    if !failed {
      ScaledBy(pods, created, old(info.entries), info.entries, d, gone);
    }
  }

  lemma ScaledBy(pods: seq<Pod>, created: seq<Pod>, sync: SyncMap, sync': SyncMap, d: Diff<PodBody>, gone: seq<Key>)
    requires |pods| <= |created| && (forall i :: 0 <= i < |pods| ==> created[i] == pods[i])
    requires forall p :: p in d.creates ==> HasKey(created, p.key)
    requires forall k :: k in gone <==> HasKey(d.deletes, k)
    requires (forall k :: k in sync' <==> k in sync && k !in gone) && (forall k :: k in sync' ==> sync'[k] == sync[k])
    ensures Scaled(pods, sync, d, TerminateAll(created, gone), sync')
  {
    var after := TerminateAll(created, gone);
    TerminateAllKeys(created, gone);
    forall p | p in d.creates ensures HasKey(after, p.key) {
      var q :| q in created && q.key == p.key;
      var i :| 0 <= i < |created| && created[i] == q;
      assert after[i] in after;
    }
  }

  /** The roll-out of a non-empty list of updates; without an error and a requeue the cluster is settled. */
  method Update(cluster: Cluster, want: seq<Pod>, d: Diff<PodBody>, info: SyncInfo, replicas: nat, maxUnavail: Option<IntOrPercent>)
    returns (requeue: bool, failed: bool, ghost acked: seq<Key>, ghost reached: seq<Key>)
    requires UniqueKeys(cluster.pods) && UniqueKeys(want)
    requires IsDiff(d, cluster.pods, want) && d.creates == [] && d.deletes == []
    requires forall k :: k in Plan(cluster.pods, d.updates, info.entries, replicas, maxUnavail) ==> k in info.entries
    modifies cluster, info
    ensures Carried(old(cluster.pods), old(info.entries), Plan(old(cluster.pods), d.updates, old(info.entries), replicas, maxUnavail),
                    |Pick(BypassPod, old(cluster.pods), d.updates, old(info.entries))|, cluster.pods, info.entries, acked, reached)
    ensures Evolved(old(cluster.pods), cluster.pods, want)
    ensures cluster.errors == old(cluster.errors) + if failed then 1 else 0
    ensures var plan := Plan(old(cluster.pods), d.updates, old(info.entries), replicas, maxUnavail);
      !failed ==> acked == reached == plan && (requeue <==> |plan| != |d.updates|)
    ensures !requeue && !failed ==> Settled(cluster.pods, want)
  {
    ghost var pods, sync := cluster.pods, info.entries;
    ghost var plan := Plan(pods, d.updates, sync, replicas, maxUnavail);
    PlanIsSound(pods, d.updates, sync, replicas, maxUnavail);
    requeue, failed, acked, reached := RollOut(cluster, d.updates, info, replicas, maxUnavail);
    TerminatedEvolves(pods, pods, want, reached);
    if !requeue && !failed {
      PlanCovers(pods, d.updates, sync, replicas, maxUnavail);
      CoveredIsSettled(pods, want, d, plan);
    }
  }

  /** Every pod that an update phase would delete has a status entry, which the source dereferences afterwards. */
  ghost predicate Dereferenceable(pods: seq<Pod>, want: seq<Pod>, sync: SyncMap, replicas: nat, maxUnavail: Option<IntOrPercent>) {
    forall d :: IsDiff(d, pods, want) && d.creates == [] && d.deletes == [] ==>
      forall k :: k in Plan(pods, d.updates, sync, replicas, maxUnavail) ==> k in sync
  }

  /**
   * `Reconcile`. While anything is to be created or deleted it only scales, never touching a wanted pod, and asks
   * for another round; otherwise it carries out the rollout plan. Without an error it does all of that; it asks for no
   * further round and reports no error only when the cluster is settled.
   */
  method Reconcile(cluster: Cluster, want: seq<Pod>, info: SyncInfo, replicas: nat, maxUnavail: Option<IntOrPercent>)
    returns (requeue: bool, failed: bool, d: Diff<PodBody>, ghost acked: seq<Key>, ghost reached: seq<Key>)
    requires UniqueKeys(cluster.pods) && UniqueKeys(want)
    requires Dereferenceable(cluster.pods, want, info.entries, replicas, maxUnavail)
    modifies cluster, info
    ensures IsDiff(d, old(cluster.pods), want)
    ensures Evolved(old(cluster.pods), cluster.pods, want)
    ensures cluster.errors == old(cluster.errors) + if failed then 1 else 0
    ensures !requeue && !failed ==> Settled(cluster.pods, want)
    ensures !failed && (d.creates != [] || d.deletes != []) ==>
      requeue && Scaled(old(cluster.pods), old(info.entries), d, cluster.pods, info.entries)
    ensures var plan := Plan(old(cluster.pods), d.updates, old(info.entries), replicas, maxUnavail);
      !failed && d.creates == [] && d.deletes == [] ==> acked == reached == plan && (requeue <==> |plan| != |d.updates|)
    ensures d.creates != [] || d.deletes != [] ==>
      forall i :: 0 <= i < |old(cluster.pods)| && HasKey(want, old(cluster.pods)[i].key) ==> cluster.pods[i] == old(cluster.pods)[i]
    ensures d.creates == [] && d.deletes == [] ==>
      Carried(old(cluster.pods), old(info.entries), Plan(old(cluster.pods), d.updates, old(info.entries), replicas, maxUnavail),
              |Pick(BypassPod, old(cluster.pods), d.updates, old(info.entries))|, cluster.pods, info.entries, acked, reached)
  {
    acked, reached := [], [];
    var diffed := New(cluster.pods, want);
    d := diffed.value;
    var listErr := cluster.List();
    if listErr {
      requeue, failed := false, true;
      return;
    }
    failed := Scale(cluster, want, d, info);
    requeue := true;
    if !failed && d.creates == [] && d.deletes == [] {
      if d.updates != [] {
        requeue, failed, acked, reached := Update(cluster, want, d, info, replicas, maxUnavail);
      } else {
        requeue := false;
        CoveredIsSettled(cluster.pods, want, d, []);
        PlanCovers(cluster.pods, d.updates, info.entries, replicas, maxUnavail);
      }
    }
  }
}
