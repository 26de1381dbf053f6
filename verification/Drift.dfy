/** Height-drift mitigation: `LaggingPods` of internal/fullnode/drift_detection.go. */
module Drift {
  import opened Common
  import opened Rollout
  import opened PodControl
  import opened RollingUpdate
  import opened StatusCache

  function MaxHeight(items: seq<Item>): nat {
    if items == [] then 0 else Max(MaxHeight(items[..|items| - 1]), items[|items| - 1].status.height)
  }

  /** The source subtracts unsigned 64-bit heights: a height above the maximum would wrap around. */
  lemma {:induction false} NoUnderflow(items: seq<Item>)
    ensures forall x :: x in items ==> x.status.height <= MaxHeight(items)
    ensures items != [] ==> exists x :: x in items && x.status.height == MaxHeight(items)
  {
    if items != [] {
      var front, last := items[..|items| - 1], items[|items| - 1];
      NoUnderflow(front);
      assert items == front + [last];
      assert last in items;
      if front != [] {
        var x :| x in front && x.status.height == MaxHeight(front);
        assert x in items;
      }
    }
  }

  function Lagging(items: seq<Item>, top: nat, threshold: nat): seq<Pod>
    requires forall x :: x in items ==> x.status.height <= top
  {
    if items == [] then []
    else
      var last := items[|items| - 1];
      assert last in items;
      var behind: nat := top - last.status.height;
      var rest := Lagging(items[..|items| - 1], top, threshold);
      if behind >= threshold then rest + [last.pod] else rest
  }

  /** How many of these pods are available, not counting the ones in `gone`. */
  function Count(items: seq<Item>, available: set<string>, gone: set<string>): nat {
    if items == [] then 0
    else
      var uid := items[|items| - 1].pod.body.uid;
      Count(items[..|items| - 1], available, gone) + if uid in available && uid !in gone then 1 else 0
  }

  /** `LaggingPods`; `available` are the UIDs that `kube.AvailablePods` lets through. */
  function LaggingPods(coll: seq<Item>, threshold: nat, replicas: nat, maxUnavail: Option<IntOrPercent>, available: set<string>)
    : seq<Pod>
  {
    var synced := Synced(coll);
    NoUnderflow(synced);
    var lagging := Lagging(synced, MaxHeight(synced), threshold);
    var rollout := ComputeRollout(maxUnavail, replicas, Count(synced, available, {}));
    lagging[..Min(|lagging|, rollout)]
  }

  // ----- which pods, exactly

  /** The positions below `n` of items that trail `top` by the threshold. */
  ghost function Trailing(items: seq<Item>, top: nat, threshold: nat, n: nat): set<int>
    requires n <= |items|
  {
    set i | 0 <= i < n && items[i].status.height + threshold <= top
  }

  /** The positions of available pods that are not gone. */
  ghost function Present(items: seq<Item>, available: set<string>, gone: set<string>): set<int> {
    set i | 0 <= i < |items| && items[i].pod.body.uid in available && items[i].pod.body.uid !in gone
  }

  lemma {:induction false} CountMeans(items: seq<Item>, available: set<string>, gone: set<string>)
    ensures Count(items, available, gone) == |Present(items, available, gone)|
  {
    if items == [] {
      assert Present(items, available, gone) == {};
    } else {
      var front, uid := items[..|items| - 1], items[|items| - 1].pod.body.uid;
      CountMeans(front, available, gone);
      var before := Present(front, available, gone);
      assert Present(items, available, gone) == if uid in available && uid !in gone then before + {|front|} else before;
    }
  }

  lemma TrailingSnoc(items: seq<Item>, top: nat, threshold: nat)
    requires items != []
    ensures var front, n := items[..|items| - 1], |items| - 1;
      && (forall i :: 0 <= i <= n ==> Trailing(front, top, threshold, i) == Trailing(items, top, threshold, i))
      && n !in Trailing(items, top, threshold, n)
      && Trailing(items, top, threshold, n + 1) ==
         if items[n].status.height + threshold <= top then Trailing(items, top, threshold, n) + {n} else Trailing(items, top, threshold, n)
  {
    var front := items[..|items| - 1];
    forall i | 0 <= i <= |items| - 1 ensures Trailing(front, top, threshold, i) == Trailing(items, top, threshold, i) {
    }
  }

  lemma {:induction false} LaggingRank(items: seq<Item>, top: nat, threshold: nat)
    requires forall x :: x in items ==> x.status.height <= top
    ensures |Lagging(items, top, threshold)| == |Trailing(items, top, threshold, |items|)|
    ensures forall i :: i in Trailing(items, top, threshold, |items|) ==>
      var rank := |Trailing(items, top, threshold, i)|;
      rank < |Lagging(items, top, threshold)| && Lagging(items, top, threshold)[rank] == items[i].pod
  {
    if items == [] {
      assert Trailing(items, top, threshold, 0) == {};
    } else {
      LaggingRank(items[..|items| - 1], top, threshold);
      TrailingSnoc(items, top, threshold);
    }
  }

  /**
   * The result exactly: the first min(m, b) synced pods, in collection order, that trail the top height by the
   * threshold, where m of them do and b is the budget for the available pods.
   */
  lemma LaggingExactly(coll: seq<Item>, threshold: nat, replicas: nat, maxUnavail: Option<IntOrPercent>, available: set<string>)
    ensures var synced, r := Synced(coll), LaggingPods(coll, threshold, replicas, maxUnavail, available);
      var top, b := MaxHeight(synced), ComputeRollout(maxUnavail, replicas, |Present(synced, available, {})|);
      && |r| == Min(|Trailing(synced, top, threshold, |synced|)|, b)
      && forall i :: i in Trailing(synced, top, threshold, |synced|) && |Trailing(synced, top, threshold, i)| < b ==>
           var rank := |Trailing(synced, top, threshold, i)|;
           rank < |r| && r[rank] == synced[i].pod
  {
    var synced := Synced(coll);
    NoUnderflow(synced);
    CountMeans(synced, available, {});
    LaggingRank(synced, MaxHeight(synced), threshold);
  }

  /** Something is returned iff a synced pod lags and more pods are available than the floor of a non-empty fleet. */
  lemma MitigatesExactly(coll: seq<Item>, threshold: nat, replicas: nat, maxUnavail: Option<IntOrPercent>, available: set<string>)
    ensures LaggingPods(coll, threshold, replicas, maxUnavail, available) != [] <==>
      && (exists x :: x in Synced(coll) && x.status.height + threshold <= MaxHeight(Synced(coll)))
      && replicas > 0 && |Present(Synced(coll), available, {})| > Floor(replicas, maxUnavail)
  {
    var synced := Synced(coll);
    LaggingExactly(coll, threshold, replicas, maxUnavail, available);
    var trailing := Trailing(synced, MaxHeight(synced), threshold, |synced|);
    assert trailing != {} <==> exists x :: x in synced && x.status.height + threshold <= MaxHeight(synced) by {
      if trailing != {} {
        var i :| i in trailing;
        assert synced[i] in synced;
      }
    }
    assert |trailing| > 0 <==> trailing != {};
  }

  lemma {:induction false} LaggingItems(items: seq<Item>, top: nat, threshold: nat)
    requires forall x :: x in items ==> x.status.height <= top
    ensures forall p :: p in Lagging(items, top, threshold) <==> exists x :: x in items && x.pod == p && top - x.status.height >= threshold
  {
    if items != [] {
      LaggingItems(items[..|items| - 1], top, threshold);
      assert items == items[..|items| - 1] + [items[|items| - 1]];
    }
  }

  /** Every returned pod reports itself synced while trailing the top height by the threshold or more. */
  lemma ReturnedAreLagging(coll: seq<Item>, threshold: nat, replicas: nat, maxUnavail: Option<IntOrPercent>, available: set<string>)
    ensures forall p :: p in LaggingPods(coll, threshold, replicas, maxUnavail, available) ==>
      exists x :: x in Synced(coll) && x.pod == p && x.status.height + threshold <= MaxHeight(Synced(coll))
  {
    var synced := Synced(coll);
    NoUnderflow(synced);
    LaggingItems(synced, MaxHeight(synced), threshold);
    var lagging := Lagging(synced, MaxHeight(synced), threshold);
    assert forall p :: p in LaggingPods(coll, threshold, replicas, maxUnavail, available) ==> p in lagging;
  }

  lemma SameUidSameItem(items: seq<Item>, x: Item, y: Item)
    requires DistinctUids(items) && x in items && y in items && x.pod.body.uid == y.pod.body.uid
    ensures x == y
  {
  }

  /** With the threshold of at least 1 that the API demands, no pod at the top height is ever returned. */
  lemma TopIsSpared(coll: seq<Item>, threshold: nat, replicas: nat, maxUnavail: Option<IntOrPercent>, available: set<string>, x: Item)
    requires DistinctUids(Synced(coll)) && threshold >= 1
    requires x in Synced(coll) && x.status.height == MaxHeight(Synced(coll))
    ensures x.pod !in LaggingPods(coll, threshold, replicas, maxUnavail, available)
  {
    ReturnedAreLagging(coll, threshold, replicas, maxUnavail, available);
    forall y | y in Synced(coll) && y.pod == x.pod ensures y == x {
      SameUidSameItem(Synced(coll), x, y);
    }
  }

  function Uids(items: seq<Item>): set<string> {
    if items == [] then {} else Uids(items[..|items| - 1]) + {items[|items| - 1].pod.body.uid}
  }

  lemma {:induction false} UidsMembers(items: seq<Item>, uid: string)
    ensures uid in Uids(items) <==> Holds(items, uid)
  {
    if items != [] {
      var front := items[..|items| - 1];
      UidsMembers(front, uid);
      assert forall i :: 0 <= i < |front| ==> front[i] == items[i];
    }
  }

  lemma {:induction false} CountCost(items: seq<Item>, available: set<string>, gone: set<string>)
    requires DistinctUids(items)
    ensures Count(items, available, {}) - Count(items, available, gone) <= |gone * Uids(items)|
  {
    if items != [] {
      var front, uid := items[..|items| - 1], items[|items| - 1].pod.body.uid;
      CountCost(front, available, gone);
      UidsMembers(front, uid);
      assert uid !in Uids(front);
      if uid in gone {
        assert gone * Uids(items) == gone * Uids(front) + {uid};
      } else {
        assert gone * Uids(items) == gone * Uids(front);
      }
    }
  }

  function UidsOf(pods: seq<Pod>): set<string> {
    set p | p in pods :: p.body.uid
  }

  lemma {:induction false} UidsOfSize(pods: seq<Pod>)
    ensures |UidsOf(pods)| <= |pods|
  {
    if pods != [] {
      var front, last := pods[..|pods| - 1], pods[|pods| - 1];
      UidsOfSize(front);
      assert pods == front + [last];
      assert UidsOf(pods) == UidsOf(front) + {last.body.uid};
    }
  }

  /** Deleting everything `LaggingPods` returns leaves at least min(available, floor) available synced pods. */
  lemma DriftKeepsFloor(coll: seq<Item>, threshold: nat, replicas: nat, maxUnavail: Option<IntOrPercent>, available: set<string>)
    requires DistinctUids(Synced(coll))
    ensures var gone := UidsOf(LaggingPods(coll, threshold, replicas, maxUnavail, available));
      Count(Synced(coll), available, gone) >= Min(Count(Synced(coll), available, {}), Floor(replicas, maxUnavail))
  {
    var result := LaggingPods(coll, threshold, replicas, maxUnavail, available);
    var gone := UidsOf(result);
    CountCost(Synced(coll), available, gone);
    UidsOfSize(result);
    SubsetSize(gone * Uids(Synced(coll)), gone);
  }

  lemma SubsetSize(a: set<string>, b: set<string>)
    requires a <= b
    ensures |a| <= |b|
  {
    assert |b - a| == |b| - |a|;
  }
}
