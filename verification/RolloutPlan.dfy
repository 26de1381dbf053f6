/**
 * Which pods a round of internal/fullnode/pod_control.go deletes, said without its loops: by what a pod and its status
 * look like, by set cardinality and by position in the list.
 */
module RolloutPlan {
  import opened Common
  import opened Rollout
  import opened Diff
  import opened PodControl
  import opened RollingUpdate
  import PodReconcile

  /** Live, waiting for another image, and without an error-free status: deleted at once, whatever the budget. */
  ghost predicate AwaitsUpgrade(p: Pod, updates: seq<Pod>, sync: SyncMap) {
    && !p.body.terminating && (p.key in sync ==> sync[p.key].error.Some?)
    && exists u :: u in updates && u.key == p.key && u.body.image != p.body.image
  }

  /** Live and outdated otherwise: reachable, or keeping its image. */
  ghost predicate AwaitsBudget(p: Pod, updates: seq<Pod>, sync: SyncMap) {
    && !p.body.terminating
    && exists u :: u in updates && u.key == p.key &&
         (u.body.image == p.body.image || (p.key in sync && sync[p.key].error.None?))
  }

  ghost function Upgrades(pods: seq<Pod>, updates: seq<Pod>, sync: SyncMap): set<int> {
    set i | 0 <= i < |pods| && AwaitsUpgrade(pods[i], updates, sync)
  }

  /** The pods that wait for the budget, among the first `n` listed. */
  ghost function Queue(pods: seq<Pod>, updates: seq<Pod>, sync: SyncMap, n: nat): set<int>
    requires n <= |pods|
  {
    set i | 0 <= i < n && AwaitsBudget(pods[i], updates, sync)
  }

  /** Live pods in sync or, if there are none, live pods with an error-free status. */
  ghost function ReadyPods(pods: seq<Pod>, sync: SyncMap): nat {
    var synced := set i | 0 <= i < |pods| && !pods[i].body.terminating && pods[i].key in sync && sync[pods[i].key].inSync == Some(true);
    var reachable := set i | 0 <= i < |pods| && !pods[i].body.terminating && pods[i].key in sync && sync[pods[i].key].error.None?;
    if synced != {} then |synced| else |reachable|
  }

  /** What the budget leaves after the pods that bypass it. */
  ghost function Room(pods: seq<Pod>, updates: seq<Pod>, sync: SyncMap, replicas: nat, maxUnavail: Option<IntOrPercent>): int {
    ComputeRollout(maxUnavail, replicas, ReadyPods(pods, sync)) - |Upgrades(pods, updates, sync)|
  }

  // ----- picking, as sets of positions

  ghost function Positions(kind: Kind, pods: seq<Pod>, updates: seq<Pod>, sync: SyncMap, n: nat): set<int>
    requires n <= |pods|
  {
    set i | 0 <= i < n && Is(kind, pods[i], updates, sync)
  }

  lemma PositionsSnoc(kind: Kind, pods: seq<Pod>, updates: seq<Pod>, sync: SyncMap, n: nat)
    requires n < |pods|
    ensures var before := Positions(kind, pods, updates, sync, n);
      && n !in before
      && Positions(kind, pods, updates, sync, n + 1) == if Is(kind, pods[n], updates, sync) then before + {n} else before
  {
  }

  lemma {:induction false} PickCount(kind: Kind, pods: seq<Pod>, updates: seq<Pod>, sync: SyncMap, n: nat)
    requires n <= |pods|
    ensures |Pick(kind, pods[..n], updates, sync)| == |Positions(kind, pods, updates, sync, n)|
  {
    if n == 0 {
      assert Positions(kind, pods, updates, sync, 0) == {};
    } else {
      PickCount(kind, pods, updates, sync, n - 1);
      PickSnoc(kind, pods, n - 1, updates, sync);
      PositionsSnoc(kind, pods, updates, sync, n - 1);
    }
  }

  /** A picked pod stands in the list of picks at its rank. */
  lemma PickRank(kind: Kind, pods: seq<Pod>, updates: seq<Pod>, sync: SyncMap, i: nat)
    requires i < |pods| && Is(kind, pods[i], updates, sync)
    ensures var rank, picks := |Pick(kind, pods[..i], updates, sync)|, Pick(kind, pods, updates, sync);
      rank < |picks| && picks[rank] == pods[i].key
  {
    PickSnoc(kind, pods, i, updates, sync);
    PickPrefix(kind, pods, i + 1, updates, sync);
    var front := Pick(kind, pods[..i + 1], updates, sync);
    assert front[|front| - 1] == pods[i].key;
  }

  lemma PickedBelow(kind: Kind, pods: seq<Pod>, updates: seq<Pod>, sync: SyncMap, i: nat, m: nat)
    requires UniqueKeys(pods) && i < |pods| && m <= |Pick(kind, pods, updates, sync)|
    ensures pods[i].key in Pick(kind, pods, updates, sync)[..m] <==>
      Is(kind, pods[i], updates, sync) && |Pick(kind, pods[..i], updates, sync)| < m
  {
    var picks := Pick(kind, pods, updates, sync);
    PickDistinct(kind, pods, updates, sync);
    PickSound(kind, pods, updates, sync);
    assert pods[i].key in picks <==> Is(kind, pods[i], updates, sync) by {
      assert forall p :: p in pods && p.key == pods[i].key ==> p == pods[i];
    }
    if Is(kind, pods[i], updates, sync) {
      PickRank(kind, pods, updates, sync, i);
    }
  }

  /** The loop's classification is the description above. */
  lemma KindsMean(p: Pod, updates: seq<Pod>, sync: SyncMap)
    requires UniqueKeys(updates)
    ensures Is(BypassPod, p, updates, sync) <==> AwaitsUpgrade(p, updates, sync)
    ensures Is(BudgetedPod, p, updates, sync) <==> AwaitsBudget(p, updates, sync)
  {
    var u := UpdateFor(updates, p.key);
    assert forall v :: v in updates && v.key == p.key ==> u == Some(v);
  }

  lemma CountsMean(pods: seq<Pod>, updates: seq<Pod>, sync: SyncMap, n: nat)
    requires UniqueKeys(updates) && n <= |pods|
    ensures |Pick(BypassPod, pods, updates, sync)| == |Upgrades(pods, updates, sync)|
    ensures |Pick(BudgetedPod, pods[..n], updates, sync)| == |Queue(pods, updates, sync, n)|
  {
    forall i | 0 <= i < |pods|
      ensures Is(BypassPod, pods[i], updates, sync) <==> AwaitsUpgrade(pods[i], updates, sync)
      ensures Is(BudgetedPod, pods[i], updates, sync) <==> AwaitsBudget(pods[i], updates, sync)
    {
      KindsMean(pods[i], updates, sync);
    }
    PickCount(BypassPod, pods, updates, sync, |pods|);
    PickCount(BudgetedPod, pods, updates, sync, n);
    assert pods[..|pods|] == pods;
    assert Positions(BypassPod, pods, updates, sync, |pods|) == Upgrades(pods, updates, sync);
    assert Positions(BudgetedPod, pods, updates, sync, n) == Queue(pods, updates, sync, n);
  }

  /** The number handed to ComputeRollout. */
  lemma ReadyMeans(pods: seq<Pod>, sync: SyncMap)
    ensures Ready(pods, sync) == ReadyPods(pods, sync)
  {
    PickCount(InSyncPod, pods, [], sync, |pods|);
    PickCount(ReachablePod, pods, [], sync, |pods|);
    assert pods[..|pods|] == pods;
    assert Positions(InSyncPod, pods, [], sync, |pods|) ==
      set i | 0 <= i < |pods| && !pods[i].body.terminating && pods[i].key in sync && sync[pods[i].key].inSync == Some(true);
    assert Positions(ReachablePod, pods, [], sync, |pods|) ==
      set i | 0 <= i < |pods| && !pods[i].body.terminating && pods[i].key in sync && sync[pods[i].key].error.None?;
  }

  /** Bypassed and budgeted pods together are no more than the updates, so none is set aside if all are bypassed. */
  lemma NobodyLeft(pods: seq<Pod>, updates: seq<Pod>, sync: SyncMap)
    requires UniqueKeys(pods) && UniqueKeys(updates)
    ensures |Pick(BypassPod, pods, updates, sync)| == |updates| ==> Pick(BudgetedPod, pods, updates, sync) == []
  {
    var bypass, others := Pick(BypassPod, pods, updates, sync), Pick(BudgetedPod, pods, updates, sync);
    PickSound(BypassPod, pods, updates, sync);
    PickSound(BudgetedPod, pods, updates, sync);
    PodReconcile.PicksApart(pods, updates, sync);
    assert others != [] ==> others[0] in others;
    if |bypass| == |updates| {
      PickDistinct(BypassPod, pods, updates, sync);
      KeysOfUnique(updates);
      AllOfThem(bypass, KeysOf(updates));
      assert forall k :: k in others ==> HasKey(updates, k);
      assert forall k :: k !in others;
    }
  }

  lemma AllOfThem(a: seq<Key>, b: seq<Key>)
    requires Distinct(a) && Distinct(b) && |a| == |b| && forall k :: k in a ==> k in b
    ensures forall k :: k in b ==> k in a
  {
    DistinctSize(a);
    DistinctSize(b);
    var s, t := set k | k in a, set k | k in b;
    assert s <= t;
    PodReconcile.FullSubset(s, t);
    assert forall k :: k in b ==> k in t;
  }

  /**
   * The plan exactly: a listed pod is deleted iff it awaits an upgrade out of reach, or it awaits the budget and,
   * counting the upgrades and the pods queued before it, the budget reaches it. With nothing in sync the budget is
   * computed from the reachable pods.
   */
  lemma PlanExactly(pods: seq<Pod>, updates: seq<Pod>, sync: SyncMap, replicas: nat, maxUnavail: Option<IntOrPercent>, i: nat)
    requires UniqueKeys(pods) && UniqueKeys(updates) && i < |pods|
    ensures pods[i].key in Plan(pods, updates, sync, replicas, maxUnavail) <==>
      || AwaitsUpgrade(pods[i], updates, sync)
      || (AwaitsBudget(pods[i], updates, sync) &&
          |Queue(pods, updates, sync, i)| < Room(pods, updates, sync, replicas, maxUnavail))
  {
    var bypass, others := Pick(BypassPod, pods, updates, sync), Pick(BudgetedPod, pods, updates, sync);
    KindsMean(pods[i], updates, sync);
    CountsMean(pods, updates, sync, i);
    ReadyMeans(pods, sync);
    NobodyLeft(pods, updates, sync);
    var m := Max(0, Min(|others|, Room(pods, updates, sync, replicas, maxUnavail)));
    PickedBelow(BypassPod, pods, updates, sync, i, |bypass|);
    PickedBelow(BudgetedPod, pods, updates, sync, i, m);
    if AwaitsBudget(pods[i], updates, sync) {
      PickRank(BudgetedPod, pods, updates, sync, i);
    }
    if AwaitsUpgrade(pods[i], updates, sync) {
      PickRank(BypassPod, pods, updates, sync, i);
    }
    assert bypass[..|bypass|] == bypass;
    assert Plan(pods, updates, sync, replicas, maxUnavail) == bypass + others[..m];
  }

  /** The marked positions among the first `n`. */
  ghost function Marks(marks: seq<bool>, n: nat): set<int>
    requires n <= |marks|
  {
    set i | 0 <= i < n && marks[i]
  }

  lemma MarksSnoc(marks: seq<bool>, n: nat, room: int)
    requires n < |marks|
    ensures n !in Marks(marks, n) && Marks(marks, n + 1) == if marks[n] then Marks(marks, n) + {n} else Marks(marks, n)
    ensures var front := First(marks, n, room);
      n !in front && First(marks, n + 1, room) == if marks[n] && |Marks(marks, n)| < room then front + {n} else front
  {
  }

  /** Those of them with fewer than `room` marked positions before them. */
  ghost function First(marks: seq<bool>, n: nat, room: int): set<int>
    requires n <= |marks|
  {
    set i | 0 <= i < n && marks[i] && |Marks(marks, i)| < room
  }

  lemma {:induction false} FirstCount(marks: seq<bool>, n: nat, room: int)
    requires n <= |marks|
    ensures |First(marks, n, room)| == Max(0, Min(|Marks(marks, n)|, room))
  {
    if n == 0 {
      assert First(marks, 0, room) == {} && Marks(marks, 0) == {};
    } else {
      FirstCount(marks, n - 1, room);
      MarksSnoc(marks, n - 1, room);
    }
  }

  /** Of the pods that do not bypass the budget exactly as many are deleted as the budget has room for. */
  lemma WithinBudget(pods: seq<Pod>, updates: seq<Pod>, sync: SyncMap, replicas: nat, maxUnavail: Option<IntOrPercent>)
    requires UniqueKeys(pods) && UniqueKeys(updates)
    ensures var plan := Plan(pods, updates, sync, replicas, maxUnavail);
      var budgeted := set i | 0 <= i < |pods| && pods[i].key in plan && !AwaitsUpgrade(pods[i], updates, sync);
      && |budgeted| == Max(0, Min(|Queue(pods, updates, sync, |pods|)|, Room(pods, updates, sync, replicas, maxUnavail)))
      && |budgeted| <= ComputeRollout(maxUnavail, replicas, ReadyPods(pods, sync))
  {
    var plan, room := Plan(pods, updates, sync, replicas, maxUnavail), Room(pods, updates, sync, replicas, maxUnavail);
    var budgeted := set i | 0 <= i < |pods| && pods[i].key in plan && !AwaitsUpgrade(pods[i], updates, sync);
    ghost var marks := seq(|pods|, i requires 0 <= i < |pods| => AwaitsBudget(pods[i], updates, sync));
    forall i | 0 <= i <= |pods| ensures Queue(pods, updates, sync, i) == Marks(marks, i) {
    }
    forall i | 0 <= i < |pods| ensures i in budgeted <==> i in First(marks, |pods|, room) {
      PlanExactly(pods, updates, sync, replicas, maxUnavail, i);
      KindsMean(pods[i], updates, sync);
    }
    assert budgeted == First(marks, |pods|, room);
    FirstCount(marks, |pods|, room);
  }

  lemma {:induction false} MarkedAt(sync: SyncMap, keys: seq<Key>, upgrades: nat, j: nat)
    requires Distinct(keys) && j < |keys|
    ensures keys[j] in Marked(sync, keys, upgrades)
    ensures Marked(sync, keys, upgrades)[keys[j]] ==
      PodSync(None, Some(if j < upgrades then "version upgrade in progress" else "update in progress"))
  {
    if j < |keys| - 1 {
      MarkedAt(sync, keys[..|keys| - 1], upgrades, j);
    }
  }

  /** What a completed round leaves in the status map: a mark that says why a pod went, and every other entry as it was. */
  lemma MarksExactly(pods: seq<Pod>, updates: seq<Pod>, sync: SyncMap, replicas: nat, maxUnavail: Option<IntOrPercent>, i: nat)
    requires UniqueKeys(pods) && UniqueKeys(updates) && i < |pods|
    ensures var plan, k := Plan(pods, updates, sync, replicas, maxUnavail), pods[i].key;
      var after := Marked(sync, plan, |Upgrades(pods, updates, sync)|);
      if AwaitsUpgrade(pods[i], updates, sync) then k in after && after[k] == PodSync(None, Some("version upgrade in progress"))
      else if k in plan then k in after && after[k] == PodSync(None, Some("update in progress"))
      else (k in after <==> k in sync) && (k in sync ==> after[k] == sync[k])
  {
    var plan, k, bypass := Plan(pods, updates, sync, replicas, maxUnavail), pods[i].key, Pick(BypassPod, pods, updates, sync);
    KindsMean(pods[i], updates, sync);
    CountsMean(pods, updates, sync, 0);
    PlanExactly(pods, updates, sync, replicas, maxUnavail, i);
    PodReconcile.PlanIsSound(pods, updates, sync, replicas, maxUnavail);
    MarkedEntries(sync, plan, |bypass|);
    PickedBelow(BypassPod, pods, updates, sync, i, |bypass|);
    if AwaitsUpgrade(pods[i], updates, sync) {
      PickRank(BypassPod, pods, updates, sync, i);
    }
    assert bypass[..|bypass|] == bypass && bypass <= plan;
    if k in plan {
      var j :| 0 <= j < |plan| && plan[j] == k;
      MarkedAt(sync, plan, |bypass|, j);
      InPrefix(bypass, plan, j);
    }
  }

  lemma InPrefix(a: seq<Key>, b: seq<Key>, j: nat)
    requires a <= b && Distinct(b) && j < |b|
    ensures b[j] in a <==> j < |a|
  {
  }
}
