/**
 * internal/fullnode/pod_control.go: scaling, then deleting outdated pods under the max-unavailable budget, with
 * the bypass for unreachable pods that wait for another image.
 *
 * An API call either works, fails without effect, or fails after taking effect; the model allows all three.
 */
module PodControl {
  import opened Common
  import opened Rollout
  import opened Diff

  datatype PodBody = PodBody(uid: string, image: string, terminating: bool)

  type Pod = Resource<PodBody>

  /** `SyncInfoPodStatus` without its timestamp and height. */
  datatype PodSync = PodSync(inSync: Option<bool>, error: Option<string>)

  type SyncMap = map<Key, PodSync>

  const UPGRADING := "version upgrade in progress"
  const UPDATING := "update in progress"

  // ----- classifying the listed pods

  datatype Kind = InSyncPod | ReachablePod | BypassPod | BudgetedPod | BehindPod

  /** The inner search loop over the updates: first entry of that name. */
  function UpdateFor(updates: seq<Pod>, key: Key): (u: Option<Pod>)
    ensures u.Some? ==> u.value in updates && u.value.key == key
    ensures u.None? ==> !HasKey(updates, key)
  {
    if updates == [] then None
    else if updates[0].key == key then Some(updates[0])
    else UpdateFor(updates[1..], key)
  }

  predicate InSync(p: Pod, sync: SyncMap) {
    !p.body.terminating && p.key in sync && sync[p.key].inSync == Some(true)
  }

  predicate Reachable(p: Pod, sync: SyncMap) {
    !p.body.terminating && p.key in sync && sync[p.key].error.None?
  }

  predicate Is(kind: Kind, p: Pod, updates: seq<Pod>, sync: SyncMap) {
    var u := UpdateFor(updates, p.key);
    match kind
    case InSyncPod => InSync(p, sync)
    case ReachablePod => Reachable(p, sync)
    case BypassPod =>
      !p.body.terminating && u.Some? && p.body.image != u.value.body.image && !Reachable(p, sync)
    case BudgetedPod =>
      !p.body.terminating && u.Some? && (p.body.image == u.value.body.image || Reachable(p, sync))
    case BehindPod => u.Some? && p.revision != u.value.revision
  }

  /** The names of the pods of one kind, in list order. */
  function Pick(kind: Kind, pods: seq<Pod>, updates: seq<Pod>, sync: SyncMap): seq<Key> {
    if pods == [] then []
    else
      var last := pods[|pods| - 1];
      var rest := Pick(kind, pods[..|pods| - 1], updates, sync);
      if Is(kind, last, updates, sync) then rest + [last.key] else rest
  }

  function InSyncCount(pods: seq<Pod>, sync: SyncMap): nat {
    |Pick(InSyncPod, pods, [], sync)|
  }

  // ----- which pods one round deletes, in order

  function Ready(pods: seq<Pod>, sync: SyncMap): nat {
    var synced := InSyncCount(pods, sync);
    if synced == 0 then |Pick(ReachablePod, pods, [], sync)| else synced
  }

  function Budget(pods: seq<Pod>, sync: SyncMap, replicas: nat, maxUnavail: Option<IntOrPercent>): int {
    ComputeRollout(maxUnavail, replicas, Ready(pods, sync))
  }

  function Plan(pods: seq<Pod>, updates: seq<Pod>, sync: SyncMap, replicas: nat, maxUnavail: Option<IntOrPercent>)
    : seq<Key>
  {
    var bypass := Pick(BypassPod, pods, updates, sync);
    var budgeted := Pick(BudgetedPod, pods, updates, sync);
    var n := Budget(pods, sync, replicas, maxUnavail);
    if |bypass| == |updates| || |bypass| >= n then bypass
    else bypass + budgeted[..Min(|budgeted|, n - |bypass|)]
  }

  // ----- effects

  /** Foreground deletion: the pod stays listed, terminating, until the kubelet is done with it. */
  function Terminate(pods: seq<Pod>, key: Key): seq<Pod> {
    if pods == [] then []
    else
      var last := pods[|pods| - 1];
      Terminate(pods[..|pods| - 1], key) + [if last.key == key then Dying(last) else last]
  }

  function Dying(p: Pod): Pod {
    p.(body := p.body.(terminating := true))
  }

  function TerminateAll(pods: seq<Pod>, keys: seq<Key>): seq<Pod> {
    if keys == [] then pods
    else Terminate(TerminateAll(pods, keys[..|keys| - 1]), keys[|keys| - 1])
  }

  /** What the status map says once the first `|keys|` planned pods are deleted, `upgrades` of them by the bypass. */
  function Marked(sync: SyncMap, keys: seq<Key>, upgrades: nat): SyncMap {
    if keys == [] then sync
    else
      var n := |keys| - 1;
      Marked(sync, keys[..n], upgrades)[keys[n] := PodSync(None, Some(if n < upgrades then UPGRADING else UPDATING))]
  }

  /** The pods of the API server; `errors` counts the calls that came back with an error. */
  class Cluster {
    var pods: seq<Pod>
    ghost var errors: nat

    constructor (pods: seq<Pod>)
      ensures this.pods == pods && errors == 0
    {
      this.pods := pods;
      errors := 0;
    }

    method List() returns (err: bool)
      modifies this`errors
      ensures errors == old(errors) + if err then 1 else 0
    {
      err := *;
      errors := errors + if err then 1 else 0;
    }

    method Delete(key: Key) returns (err: bool)
      modifies this
      ensures pods == Terminate(old(pods), key) || (err && pods == old(pods))
      ensures errors == old(errors) + if err then 1 else 0
    {
      err := *;
      var reached: bool := *;
      if !err || reached {
        pods := Terminate(pods, key);
      }
      errors := errors + if err then 1 else 0;
    }

    /** AlreadyExists is not an error to the caller. */
    method Create(p: Pod) returns (err: bool)
      modifies this
      ensures pods == old(pods) || (pods == old(pods) + [p] && !HasKey(old(pods), p.key))
      ensures !err ==> HasKey(pods, p.key)
      ensures errors == old(errors) + if err then 1 else 0
    {
      err := *;
      var reached: bool := *;
      if (!err || reached) && UpdateFor(pods, p.key).None? {
        pods := pods + [p];
        assert pods[|pods| - 1] == p;
      }
      errors := errors + if err then 1 else 0;
    }
  }

  class SyncInfo {
    var entries: SyncMap

    constructor (entries: SyncMap)
      ensures this.entries == entries
    {
      this.entries := entries;
    }
  }

  // ----- lemmas about picking

  lemma PickSnoc(kind: Kind, pods: seq<Pod>, i: nat, updates: seq<Pod>, sync: SyncMap)
    requires i < |pods|
    ensures var before, after := Pick(kind, pods[..i], updates, sync), Pick(kind, pods[..i + 1], updates, sync);
      after == if Is(kind, pods[i], updates, sync) then before + [pods[i].key] else before
  {
    assert pods[..i + 1][..i] == pods[..i];
  }

  lemma {:induction false} PickSound(kind: Kind, pods: seq<Pod>, updates: seq<Pod>, sync: SyncMap)
    ensures forall k :: k in Pick(kind, pods, updates, sync) <==>
      exists p :: p in pods && p.key == k && Is(kind, p, updates, sync)
  {
    if pods != [] {
      PickSound(kind, pods[..|pods| - 1], updates, sync);
      assert pods == pods[..|pods| - 1] + [pods[|pods| - 1]];
    }
  }

  /** Picking depends only on the entries of the pods it looks at. */
  lemma {:induction false} PickFrame(kind: Kind, pods: seq<Pod>, updates: seq<Pod>, sync: SyncMap, sync': SyncMap)
    requires forall i :: 0 <= i < |pods| ==> Is(kind, pods[i], updates, sync) == Is(kind, pods[i], updates, sync')
    ensures Pick(kind, pods, updates, sync) == Pick(kind, pods, updates, sync')
  {
    if pods != [] {
      PickFrame(kind, pods[..|pods| - 1], updates, sync, sync');
    }
  }

  lemma PickPrefix(kind: Kind, pods: seq<Pod>, i: nat, updates: seq<Pod>, sync: SyncMap)
    requires i <= |pods|
    ensures Pick(kind, pods[..i], updates, sync) <= Pick(kind, pods, updates, sync)
    decreases |pods| - i
  {
    if i < |pods| {
      PickSnoc(kind, pods, i, updates, sync);
      PickPrefix(kind, pods, i + 1, updates, sync);
    } else {
      assert pods[..i] == pods;
    }
  }

  // ----- lemmas about effects

  lemma {:induction false} TerminateAt(pods: seq<Pod>, key: Key)
    ensures |Terminate(pods, key)| == |pods|
    ensures forall i :: 0 <= i < |pods| ==>
      Terminate(pods, key)[i] == if pods[i].key == key then Dying(pods[i]) else pods[i]
  {
    if pods != [] {
      TerminateAt(pods[..|pods| - 1], key);
    }
  }

  lemma TerminateAllSnoc(pods: seq<Pod>, keys: seq<Key>, k: Key)
    ensures TerminateAll(pods, keys + [k]) == Terminate(TerminateAll(pods, keys), k)
  {
  }

  lemma {:induction false} TerminateAllConcat(pods: seq<Pod>, a: seq<Key>, b: seq<Key>)
    ensures TerminateAll(pods, a + b) == TerminateAll(TerminateAll(pods, a), b)
  {
    if b == [] {
      assert a + b == a;
    } else {
      TerminateAllConcat(pods, a, b[..|b| - 1]);
      assert a + b == (a + b[..|b| - 1]) + [b[|b| - 1]];
      TerminateAllSnoc(pods, a + b[..|b| - 1], b[|b| - 1]);
    }
  }

  lemma {:induction false} TerminateAllKeys(pods: seq<Pod>, keys: seq<Key>)
    ensures |TerminateAll(pods, keys)| == |pods|
    ensures forall i :: 0 <= i < |pods| ==>
      TerminateAll(pods, keys)[i] == if pods[i].key in keys then Dying(pods[i]) else pods[i]
  {
    if keys != [] {
      TerminateAllKeys(pods, keys[..|keys| - 1]);
      TerminateAt(TerminateAll(pods, keys[..|keys| - 1]), keys[|keys| - 1]);
      assert keys == keys[..|keys| - 1] + [keys[|keys| - 1]];
    }
  }

  lemma MarkedSnoc(sync: SyncMap, keys: seq<Key>, k: Key, upgrades: nat)
    ensures Marked(sync, keys + [k], upgrades) ==
      Marked(sync, keys, upgrades)[k := PodSync(None, Some(if |keys| < upgrades then UPGRADING else UPDATING))]
  {
  }

  lemma {:induction false} MarkedConcat(sync: SyncMap, a: seq<Key>, b: seq<Key>)
    ensures Marked(sync, a + b, |a|) == Marked(Marked(sync, a, |a|), b, 0)
  {
    if b == [] {
      assert a + b == a;
    } else {
      MarkedConcat(sync, a, b[..|b| - 1]);
      assert a + b == (a + b[..|b| - 1]) + [b[|b| - 1]];
      MarkedSnoc(sync, a + b[..|b| - 1], b[|b| - 1], |a|);
    }
  }

  lemma {:induction false} MarkedEntries(sync: SyncMap, keys: seq<Key>, upgrades: nat)
    ensures forall k :: k in Marked(sync, keys, upgrades) <==> k in sync || k in keys
    ensures forall k :: k in sync && k !in keys ==> Marked(sync, keys, upgrades)[k] == sync[k]
    ensures forall k :: k in keys ==>
      Marked(sync, keys, upgrades)[k].inSync.None? && Marked(sync, keys, upgrades)[k].error.Some?
  {
    if keys != [] {
      MarkedEntries(sync, keys[..|keys| - 1], upgrades);
      assert keys == keys[..|keys| - 1] + [keys[|keys| - 1]];
    }
  }

  /**
   * The state after deleting a prefix of `keys`: the deletions in `reached` took effect at the API server, those
   * in `acked` were acknowledged too and marked in the status map.
   */
  ghost predicate Carried(pods: seq<Pod>, sync: SyncMap, keys: seq<Key>, upgrades: nat,
                          pods': seq<Pod>, sync': SyncMap, acked: seq<Key>, reached: seq<Key>)
  {
    && acked <= reached <= keys && |reached| <= |acked| + 1
    && pods' == TerminateAll(pods, reached)
    && sync' == Marked(sync, acked, upgrades)
  }

  lemma CarriedBoth(pods: seq<Pod>, sync: SyncMap, a: seq<Key>, b: seq<Key>, pods': seq<Pod>, sync': SyncMap,
                    pods'': seq<Pod>, sync'': SyncMap, acked: seq<Key>, reached: seq<Key>)
    requires Carried(pods, sync, a, |a|, pods', sync', a, a)
    requires Carried(pods', sync', b, 0, pods'', sync'', acked, reached)
    ensures Carried(pods, sync, a + b, |a|, pods'', sync'', a + acked, a + reached)
  {
    TerminateAllConcat(pods, a, reached);
    MarkedConcat(sync, a, acked);
  }

  // ----- the update phase

  /** The entry of the pod under the loop's hand has not been marked by an earlier iteration. */
  lemma NotYetMarked(pods: seq<Pod>, i: nat, updates: seq<Pod>, sync: SyncMap, upgrades: nat)
    requires UniqueKeys(pods) && i < |pods|
    ensures var marked, k := Marked(sync, Pick(BypassPod, pods[..i], updates, sync), upgrades), pods[i].key;
      (k in marked <==> k in sync) && (k in sync ==> marked[k] == sync[k])
  {
    PickSound(BypassPod, pods[..i], updates, sync);
    assert forall p :: p in pods[..i] ==> p.key != pods[i].key;
    MarkedEntries(sync, Pick(BypassPod, pods[..i], updates, sync), upgrades);
  }

  /** What the loop over the listed pods knows after the first `i`. */
  ghost predicate Surveyed(pods: seq<Pod>, i: nat, updates: seq<Pod>, sync: SyncMap,
                           bypassed: seq<Key>, others: seq<Key>, reachable: nat, synced: nat)
  {
    && i <= |pods|
    && bypassed == Pick(BypassPod, pods[..i], updates, sync) && others == Pick(BudgetedPod, pods[..i], updates, sync)
    && reachable == |Pick(ReachablePod, pods[..i], [], sync)| && synced == |Pick(InSyncPod, pods[..i], [], sync)|
  }

  lemma SurveyedNext(pods: seq<Pod>, i: nat, updates: seq<Pod>, sync: SyncMap,
                     bypassed: seq<Key>, others: seq<Key>, reachable: nat, synced: nat)
    requires i < |pods| && Surveyed(pods, i, updates, sync, bypassed, others, reachable, synced)
    ensures var p, u := pods[i], UpdateFor(updates, pods[i].key);
      var skips := !p.body.terminating && u.Some? && p.body.image != u.value.body.image && !Reachable(p, sync);
      var waits := !p.body.terminating && u.Some? && (p.body.image == u.value.body.image || Reachable(p, sync));
      Surveyed(pods, i + 1, updates, sync, if skips then bypassed + [p.key] else bypassed,
               if waits then others + [p.key] else others,
               reachable + (if Reachable(p, sync) then 1 else 0), synced + (if InSync(p, sync) then 1 else 0))
  {
    PickSnoc(ReachablePod, pods, i, [], sync);
    PickSnoc(InSyncPod, pods, i, [], sync);
    PickSnoc(BudgetedPod, pods, i, updates, sync);
    PickSnoc(BypassPod, pods, i, updates, sync);
  }

  /** A bypassed pod is the next entry of the bypass list. */
  lemma BypassStep(pods: seq<Pod>, i: nat, updates: seq<Pod>, sync: SyncMap)
    requires i < |pods| && Is(BypassPod, pods[i], updates, sync)
    ensures var bypass, before := Pick(BypassPod, pods, updates, sync), Pick(BypassPod, pods[..i], updates, sync);
      before + [pods[i].key] <= bypass && pods[i].key in bypass
  {
    var bypass, before := Pick(BypassPod, pods, updates, sync), Pick(BypassPod, pods[..i], updates, sync);
    PickSnoc(BypassPod, pods, i, updates, sync);
    PickPrefix(BypassPod, pods, i + 1, updates, sync);
    assert bypass[|before|] == pods[i].key;
  }

  /** One deletion and, once acknowledged, its mark in the status map. */
  method DeleteAndMark(cluster: Cluster, info: SyncInfo, key: Key, message: string) returns (err: bool)
    requires key in info.entries
    modifies cluster, info
    ensures cluster.pods == Terminate(old(cluster.pods), key) || (err && cluster.pods == old(cluster.pods))
    ensures info.entries == if err then old(info.entries) else old(info.entries)[key := PodSync(None, Some(message))]
    ensures cluster.errors == old(cluster.errors) + if err then 1 else 0
  {
    err := cluster.Delete(key);
    if !err {
      var entry := info.entries[key];
      info.entries := info.entries[key := entry.(inSync := None, error := Some(message))];
    }
  }

  /** The next deletion of a plan of which `done` has been carried out. */
  method DeleteNext(cluster: Cluster, info: SyncInfo, key: Key, message: string,
                    ghost pods: seq<Pod>, ghost sync: SyncMap, ghost done: seq<Key>, ghost upgrades: nat)
    returns (err: bool, ghost acked: seq<Key>, ghost reached: seq<Key>)
    requires key in info.entries && message == if |done| < upgrades then UPGRADING else UPDATING
    requires cluster.pods == TerminateAll(pods, done) && info.entries == Marked(sync, done, upgrades)
    modifies cluster, info
    ensures cluster.pods == TerminateAll(pods, reached) && info.entries == Marked(sync, acked, upgrades)
    ensures acked == (if err then done else done + [key]) && (reached == acked || (err && reached == done + [key]))
    ensures cluster.errors == old(cluster.errors) + if err then 1 else 0
  {
    TerminateAllSnoc(pods, done, key);
    MarkedSnoc(sync, done, key, upgrades);
    err := DeleteAndMark(cluster, info, key, message);
    acked := if err then done else done + [key];
    reached := if cluster.pods == TerminateAll(pods, acked) then acked else done + [key];
  }

  /** The loop over the listed pods: it counts, deletes the bypassed pods at once and sets the others aside. */
  method Survey(cluster: Cluster, updates: seq<Pod>, info: SyncInfo)
    returns (updated: nat, reachable: nat, synced: nat, others: seq<Key>, failed: bool,
             ghost acked: seq<Key>, ghost reached: seq<Key>)
    requires UniqueKeys(cluster.pods)
    requires forall k :: k in Pick(BypassPod, cluster.pods, updates, info.entries) ==> k in info.entries
    modifies cluster, info
    ensures var bypass := old(Pick(BypassPod, cluster.pods, updates, info.entries));
      && Carried(old(cluster.pods), old(info.entries), bypass, |bypass|, cluster.pods, info.entries, acked, reached)
      && (!failed ==> acked == reached == bypass && updated == |bypass|)
    ensures !failed ==> synced == old(InSyncCount(cluster.pods, info.entries))
    ensures !failed ==> reachable == |old(Pick(ReachablePod, cluster.pods, [], info.entries))|
    ensures !failed ==> others == old(Pick(BudgetedPod, cluster.pods, updates, info.entries))
    ensures cluster.errors == old(cluster.errors) + if failed then 1 else 0
  {
    var pods := cluster.pods;
    ghost var sync := info.entries;
    ghost var upgrades := |Pick(BypassPod, pods, updates, sync)|;
    updated, reachable, synced, others, failed, acked, reached := 0, 0, 0, [], false, [], [];
    for i := 0 to |pods|
      invariant !failed && reached == acked && updated == |acked|
      invariant Surveyed(pods, i, updates, sync, acked, others, reachable, synced)
      invariant cluster.pods == TerminateAll(pods, acked) && info.entries == Marked(sync, acked, upgrades)
      invariant cluster.errors == old(cluster.errors)
    {
      var p := pods[i];
      SurveyedNext(pods, i, updates, sync, acked, others, reachable, synced);
      NotYetMarked(pods, i, updates, sync, upgrades);
      if !p.body.terminating {
        var rpcReachable := Reachable(p, info.entries);
        synced := synced + if InSync(p, info.entries) then 1 else 0;
        reachable := reachable + if rpcReachable then 1 else 0;
        var update := UpdateFor(updates, p.key);
        if update.Some? {
          if p.body.image != update.value.body.image && !rpcReachable {
            BypassStep(pods, i, updates, sync);
            updated := updated + 1;
            failed, acked, reached := DeleteNext(cluster, info, p.key, UPGRADING, pods, sync, acked, upgrades);
            if failed {
              return;
            }
          } else {
            others := others + [p.key];
          }
        }
      }
    }
    assert pods[..|pods|] == pods;
  }

  /** The loop over the pods set aside, up to the budget. */
  method DeleteBudgeted(cluster: Cluster, others: seq<Key>, info: SyncInfo, start: nat, numUpdates: int)
    returns (updated: nat, failed: bool, ghost acked: seq<Key>, ghost reached: seq<Key>)
    requires start < numUpdates
    requires forall i :: 0 <= i < Min(|others|, numUpdates - start) ==> others[i] in info.entries
    modifies cluster, info
    ensures var some := others[..Min(|others|, numUpdates - start)];
      && Carried(old(cluster.pods), old(info.entries), some, 0, cluster.pods, info.entries, acked, reached)
      && (!failed ==> acked == reached == some && updated == start + |some|)
    ensures cluster.errors == old(cluster.errors) + if failed then 1 else 0
  {
    ghost var pods, sync := cluster.pods, info.entries;
    updated, failed, acked, reached := start, false, [], [];
    for j := 0 to |others|
      invariant !failed && updated == start + j <= numUpdates
      invariant updated < numUpdates
      invariant reached == acked == others[..j]
      invariant cluster.pods == TerminateAll(pods, acked)
      invariant info.entries == Marked(sync, acked, 0) && cluster.errors == old(cluster.errors)
    {
      var key := others[j];
      MarkedEntries(sync, acked, 0);
      assert others[..j + 1] == acked + [key];
      failed, acked, reached := DeleteNext(cluster, info, key, UPDATING, pods, sync, acked, 0);
      if failed {
        return;
      }
      updated := updated + 1;
      if updated >= numUpdates {
        break;
      }
    }
  }

  /**
   * The whole update phase. It carries out a prefix of the plan, all of it unless an API call fails, and asks
   * for no further round exactly if every outdated pod was deleted in this one. The status entry of every
   * planned pod must exist, because the source dereferences it after the deletion.
   */
  method RollOut(cluster: Cluster, updates: seq<Pod>, info: SyncInfo, replicas: nat, maxUnavail: Option<IntOrPercent>)
    returns (requeue: bool, failed: bool, ghost acked: seq<Key>, ghost reached: seq<Key>)
    requires UniqueKeys(cluster.pods)
    requires forall k :: k in Plan(cluster.pods, updates, info.entries, replicas, maxUnavail) ==> k in info.entries
    modifies cluster, info
    ensures var plan, upgrades := old(Plan(cluster.pods, updates, info.entries, replicas, maxUnavail)),
        |old(Pick(BypassPod, cluster.pods, updates, info.entries))|;
      && Carried(old(cluster.pods), old(info.entries), plan, upgrades, cluster.pods, info.entries, acked, reached)
      && (if failed then requeue else acked == reached == plan && (requeue <==> |plan| != |updates|))
    ensures cluster.errors == old(cluster.errors) + if failed then 1 else 0
  {
    ghost var pods, sync := cluster.pods, info.entries;
    ghost var bypass := Pick(BypassPod, pods, updates, sync);
    var updated, reachable, synced, others;
    updated, reachable, synced, others, failed, acked, reached := Survey(cluster, updates, info);
    if failed {
      return true, failed, acked, reached;
    }
    var ready := synced;
    if ready == 0 {
      ready := reachable;
    }
    var numUpdates := ComputeRollout(maxUnavail, replicas, ready);
    if updated == |updates| {
      return false, failed, acked, reached;
    }
    if updated >= numUpdates {
      return true, failed, acked, reached;
    }
    ghost var some := others[..Min(|others|, numUpdates - updated)];
    ghost var plan := Plan(pods, updates, sync, replicas, maxUnavail);
    assert plan == bypass + some;
    assert forall i :: 0 <= i < |some| ==> some[i] in plan;
    MarkedEntries(sync, bypass, |bypass|);
    ghost var pods', sync' := cluster.pods, info.entries;
    updated, failed, acked, reached := DeleteBudgeted(cluster, others, info, updated, numUpdates);
    CarriedBoth(pods, sync, bypass, some, pods', sync', cluster.pods, info.entries, acked, reached);
    return failed || |updates| != updated, failed, bypass + acked, bypass + reached;
  }
}
