/** What the update phase of internal/fullnode/pod_control.go guarantees: the availability floor and convergence. */
module RollingUpdate {
  import opened Common
  import opened Rollout
  import opened Diff
  import opened PodControl

  /** `SyncInfoStatus` never reports a pod both in sync and in error. */
  ghost predicate Consistent(sync: SyncMap) {
    forall k :: k in sync && sync[k].inSync == Some(true) ==> sync[k].error.None?
  }

  /** How many in-sync pods the budget promises to leave alone. */
  function Floor(replicas: nat, maxUnavail: Option<IntOrPercent>): int {
    replicas - Unavailable(maxUnavail, replicas)
  }

  // ----- counting in-sync pods across deletions

  ghost predicate SyncedName(pods: seq<Pod>, sync: SyncMap, key: Key) {
    exists p :: p in pods && p.key == key && InSync(p, sync)
  }

  /** Deleting one pod costs one in-sync pod if it was in sync, and none otherwise. */
  lemma {:induction false} TerminateCost(pods: seq<Pod>, sync: SyncMap, key: Key)
    requires UniqueKeys(pods)
    ensures InSyncCount(Terminate(pods, key), sync) == InSyncCount(pods, sync) - if SyncedName(pods, sync, key) then 1 else 0
  {
    if pods != [] {
      var front, last := pods[..|pods| - 1], pods[|pods| - 1];
      TerminateCost(front, sync, key);
      assert pods == front + [last];
      assert Terminate(pods, key)[..|Terminate(pods, key)| - 1] == Terminate(front, key);
      assert last.key == key ==> !SyncedName(front, sync, key);
    }
  }

  lemma TerminateAllUnique(pods: seq<Pod>, keys: seq<Key>)
    requires UniqueKeys(pods)
    ensures UniqueKeys(TerminateAll(pods, keys))
  {
    TerminateAllKeys(pods, keys);
  }

  /** Deleting any list of names costs at most one in-sync pod per name, and nothing for names out of sync. */
  lemma {:induction false} TerminateAllCost(pods: seq<Pod>, sync: SyncMap, keys: seq<Key>)
    requires UniqueKeys(pods)
    ensures InSyncCount(TerminateAll(pods, keys), sync) >= InSyncCount(pods, sync) - |keys|
    ensures (forall k :: k in keys ==> !SyncedName(pods, sync, k)) ==>
      InSyncCount(TerminateAll(pods, keys), sync) == InSyncCount(pods, sync)
  {
    if keys != [] {
      var front, k := keys[..|keys| - 1], keys[|keys| - 1];
      TerminateAllCost(pods, sync, front);
      TerminateAllUnique(pods, front);
      TerminateCost(TerminateAll(pods, front), sync, k);
      TerminateAllKeys(pods, front);
      assert SyncedName(TerminateAll(pods, front), sync, k) ==> SyncedName(pods, sync, k) by {
        forall p | p in TerminateAll(pods, front) && p.key == k && InSync(p, sync) ensures p in pods {
          var i :| 0 <= i < |pods| && TerminateAll(pods, front)[i] == p;
        }
      }
    }
  }

  /** The bypass never takes down a pod that is in sync: being in sync means being reachable. */
  lemma BypassOutOfSync(pods: seq<Pod>, updates: seq<Pod>, sync: SyncMap)
    requires UniqueKeys(pods) && Consistent(sync)
    ensures forall k :: k in Pick(BypassPod, pods, updates, sync) ==> !SyncedName(pods, sync, k)
  {
    PickSound(BypassPod, pods, updates, sync);
    assert forall p, q :: p in pods && q in pods && p.key == q.key ==> p == q;
  }

  /**
   * The availability floor of one round, cut short anywhere by a failing API call: it leaves at least
   * min(in sync before, replicas - max(1, maxUnavailable)) pods in sync and not terminating.
   */
  lemma FloorKept(pods: seq<Pod>, updates: seq<Pod>, sync: SyncMap, replicas: nat, maxUnavail: Option<IntOrPercent>,
                  reached: seq<Key>)
    requires UniqueKeys(pods) && Consistent(sync)
    requires reached <= Plan(pods, updates, sync, replicas, maxUnavail)
    ensures InSyncCount(TerminateAll(pods, reached), sync) >= Min(InSyncCount(pods, sync), Floor(replicas, maxUnavail))
  {
    var bypass := Pick(BypassPod, pods, updates, sync);
    BypassOutOfSync(pods, updates, sync);
    var cut := Min(|reached|, |bypass|);
    var first, rest := reached[..cut], reached[cut..];
    assert reached == first + rest;
    assert forall k :: k in first ==> k in bypass;
    TerminateAllConcat(pods, first, rest);
    TerminateAllCost(pods, sync, first);
    TerminateAllUnique(pods, first);
    TerminateAllCost(TerminateAll(pods, first), sync, rest);
    assert |rest| <= Max(0, Budget(pods, sync, replicas, maxUnavail));
  }

  /** The marks a round leaves in the status map do not change which of the remaining pods are in sync. */
  lemma MarksKeepCount(pods: seq<Pod>, sync: SyncMap, acked: seq<Key>, reached: seq<Key>, upgrades: nat)
    requires acked <= reached
    ensures InSyncCount(TerminateAll(pods, reached), Marked(sync, acked, upgrades)) == InSyncCount(TerminateAll(pods, reached), sync)
  {
    TerminateAllKeys(pods, reached);
    MarkedEntries(sync, acked, upgrades);
    assert forall k :: k in acked ==> k in reached;
    PickFrame(InSyncPod, TerminateAll(pods, reached), [], Marked(sync, acked, upgrades), sync);
  }

  // ----- whole runs

  /** What the pod controller sees: the listed pods and the status it has for them. */
  datatype View = View(pods: seq<Pod>, sync: SyncMap)

  /** A round of the update phase, or anything else that happens to the cluster. */
  datatype Event = Round(updates: seq<Pod>, acked: seq<Key>, reached: seq<Key>) | Elsewhere

  function Available(v: View): nat {
    InSyncCount(v.pods, v.sync)
  }

  ghost predicate Sound(v: View) {
    UniqueKeys(v.pods) && Consistent(v.sync)
  }

  ghost predicate Step(v: View, e: Event, v': View, replicas: nat, maxUnavail: Option<IntOrPercent>) {
    && Sound(v) && Sound(v')
    && match e
       case Round(updates, acked, reached) =>
         var upgrades := |Pick(BypassPod, v.pods, updates, v.sync)|;
         Carried(v.pods, v.sync, Plan(v.pods, updates, v.sync, replicas, maxUnavail), upgrades, v'.pods, v'.sync, acked, reached)
       case Elsewhere => true
  }

  /** How far something other than the update phase takes availability below what it was, or below the floor. */
  function Loss(v: View, e: Event, v': View, floor: int): int {
    if e.Elsewhere? then Max(0, Min(Available(v), floor) - Available(v')) else 0
  }

  ghost predicate Run(views: seq<View>, events: seq<Event>, replicas: nat, maxUnavail: Option<IntOrPercent>) {
    && |views| == |events| + 1
    && forall i :: 0 <= i < |events| ==> Step(views[i], events[i], views[i + 1], replicas, maxUnavail)
  }

  function Losses(views: seq<View>, events: seq<Event>, floor: int): (r: int)
    requires |views| == |events| + 1
    ensures r >= 0
  {
    if events == [] then 0
    else
      var n := |events| - 1;
      Losses(views[..n + 1], events[..n], floor) + Loss(views[n], events[n], views[n + 1], floor)
  }

  /**
   * Over any run that mixes update rounds with arbitrary other events, wanted pods and statuses changing at
   * will, availability falls below the floor only by what those other events took from below it: a loss that spare
   * pods above the floor absorb does not count.
   */
  lemma {:induction false} FloorOverRuns(views: seq<View>, events: seq<Event>, replicas: nat, maxUnavail: Option<IntOrPercent>)
    requires Run(views, events, replicas, maxUnavail)
    ensures var floor := Floor(replicas, maxUnavail);
      Available(views[|events|]) >= Min(Available(views[0]), floor) - Losses(views, events, floor)
  {
    if events != [] {
      var n := |events| - 1;
      var v, e, v' := views[n], events[n], views[n + 1];
      FloorOverRuns(views[..n + 1], events[..n], replicas, maxUnavail);
      assert Step(v, e, v', replicas, maxUnavail);
      if e.Round? {
        FloorKept(v.pods, e.updates, v.sync, replicas, maxUnavail, e.reached);
        MarksKeepCount(v.pods, v.sync, e.acked, e.reached, |Pick(BypassPod, v.pods, e.updates, v.sync)|);
      }
    }
  }

  // ----- when a round makes progress

  /** A round deletes something exactly if a pod is bypassed, or one is set aside and more pods are ready than the floor. */
  lemma ProgressExactly(pods: seq<Pod>, updates: seq<Pod>, sync: SyncMap, replicas: nat, maxUnavail: Option<IntOrPercent>)
    ensures Plan(pods, updates, sync, replicas, maxUnavail) != [] <==>
      || Pick(BypassPod, pods, updates, sync) != []
      || (Pick(BudgetedPod, pods, updates, sync) != [] && replicas > 0 && Ready(pods, sync) > Floor(replicas, maxUnavail))
  {
    var budgeted := Pick(BudgetedPod, pods, updates, sync);
    PickSound(BudgetedPod, pods, updates, sync);
    assert budgeted != [] ==> budgeted[0] in budgeted;
    assert budgeted != [] ==> updates != [];
  }

  // ----- convergence

  /** Every pod is up and in sync. */
  ghost predicate Healthy(pods: seq<Pod>, sync: SyncMap) {
    Consistent(sync) && forall i :: 0 <= i < |pods| ==> InSync(pods[i], sync)
  }

  function Distinct(s: seq<Key>): bool {
    forall i, j :: 0 <= i < j < |s| ==> s[i] != s[j]
  }

  function KeysOf(pods: seq<Pod>): seq<Key> {
    if pods == [] then [] else KeysOf(pods[..|pods| - 1]) + [pods[|pods| - 1].key]
  }

  lemma {:induction false} KeysOfUnique(pods: seq<Pod>)
    requires UniqueKeys(pods)
    ensures |KeysOf(pods)| == |pods| && Distinct(KeysOf(pods))
    ensures forall k :: k in KeysOf(pods) <==> HasKey(pods, k)
  {
    if pods != [] {
      var front, last := pods[..|pods| - 1], pods[|pods| - 1];
      KeysOfUnique(front);
      assert pods == front + [last];
      assert last.key !in KeysOf(front);
    }
  }

  lemma {:induction false} PickDistinct(kind: Kind, pods: seq<Pod>, updates: seq<Pod>, sync: SyncMap)
    requires UniqueKeys(pods)
    ensures Distinct(Pick(kind, pods, updates, sync))
  {
    if pods != [] {
      var front := pods[..|pods| - 1];
      PickDistinct(kind, front, updates, sync);
      PickSound(kind, front, updates, sync);
      assert forall p :: p in front ==> p.key != pods[|pods| - 1].key;
      assert pods[|pods| - 1].key !in Pick(kind, front, updates, sync);
    }
  }

  lemma {:induction false} DistinctSize(s: seq<Key>)
    requires Distinct(s)
    ensures |set k | k in s| == |s|
  {
    if s != [] {
      var front, last := s[..|s| - 1], s[|s| - 1];
      DistinctSize(front);
      assert s == front + [last];
      assert (set k | k in s) == (set k | k in front) + {last};
    }
  }

  lemma SameSize(s: seq<Key>, t: seq<Key>)
    requires Distinct(s) && Distinct(t) && forall k :: k in s <==> k in t
    ensures |s| == |t|
  {
    DistinctSize(s);
    DistinctSize(t);
    assert (set k | k in s) == (set k | k in t);
  }

  /** A listed pod has an entry among the diff's updates exactly if it is behind the wanted revision. */
  lemma BehindIsUpdated(pods: seq<Pod>, want: seq<Pod>, d: Diff<PodBody>, p: Pod, sync: SyncMap)
    requires UniqueKeys(pods) && UniqueKeys(want) && IsDiff(d, pods, want) && p in pods
    ensures UpdateFor(d.updates, p.key).Some? <==> Is(BehindPod, p, want, sync)
  {
  }

  lemma {:induction false} SamePicks(k1: Kind, k2: Kind, pods: seq<Pod>, us1: seq<Pod>, us2: seq<Pod>, sync: SyncMap)
    requires forall i :: 0 <= i < |pods| ==> Is(k1, pods[i], us1, sync) == Is(k2, pods[i], us2, sync)
    ensures Pick(k1, pods, us1, sync) == Pick(k2, pods, us2, sync)
  {
    if pods != [] {
      SamePicks(k1, k2, pods[..|pods| - 1], us1, us2, sync);
    }
  }

  lemma {:induction false} PickAll(kind: Kind, pods: seq<Pod>, updates: seq<Pod>, sync: SyncMap)
    requires forall i :: 0 <= i < |pods| ==> Is(kind, pods[i], updates, sync)
    ensures |Pick(kind, pods, updates, sync)| == |pods|
  {
    if pods != [] {
      PickAll(kind, pods[..|pods| - 1], updates, sync);
    }
  }

  lemma {:induction false} PickNone(kind: Kind, pods: seq<Pod>, updates: seq<Pod>, sync: SyncMap)
    requires forall i :: 0 <= i < |pods| ==> !Is(kind, pods[i], updates, sync)
    ensures Pick(kind, pods, updates, sync) == []
  {
    if pods != [] {
      PickNone(kind, pods[..|pods| - 1], updates, sync);
    }
  }

  /** In a healthy list nobody is bypassed, everybody is ready, and the pods set aside are those behind. */
  lemma HealthyPicks(pods: seq<Pod>, want: seq<Pod>, sync: SyncMap, d: Diff<PodBody>)
    requires UniqueKeys(pods) && UniqueKeys(want) && IsDiff(d, pods, want) && Healthy(pods, sync)
    ensures Pick(BudgetedPod, pods, d.updates, sync) == Pick(BehindPod, pods, want, sync)
    ensures Pick(BypassPod, pods, d.updates, sync) == []
    ensures InSyncCount(pods, sync) == |pods|
  {
    forall i | 0 <= i < |pods| ensures UpdateFor(d.updates, pods[i].key).Some? <==> Is(BehindPod, pods[i], want, sync) {
      BehindIsUpdated(pods, want, d, pods[i], sync);
    }
    SamePicks(BudgetedPod, BehindPod, pods, d.updates, want, sync);
    PickNone(BypassPod, pods, d.updates, sync);
    PickAll(InSyncPod, pods, [], sync);
  }

  lemma UpdateCount(pods: seq<Pod>, want: seq<Pod>, sync: SyncMap, d: Diff<PodBody>)
    requires UniqueKeys(pods) && UniqueKeys(want) && IsDiff(d, pods, want)
    ensures |d.updates| == |Pick(BehindPod, pods, want, sync)|
  {
    var behind := Pick(BehindPod, pods, want, sync);
    PickDistinct(BehindPod, pods, want, sync);
    PickSound(BehindPod, pods, want, sync);
    KeysOfUnique(d.updates);
    forall k ensures k in KeysOf(d.updates) <==> k in behind {
      UpdatedNames(pods, want, d, k, sync);
    }
    SameSize(KeysOf(d.updates), behind);
  }

  /** How many pods are behind the wanted revision. */
  function Behind(pods: seq<Pod>, want: seq<Pod>): nat {
    |Pick(BehindPod, pods, want, map[])|
  }

  /** With every replica in sync the plan is the first min(outdated, max(1, maxUnavailable)) outdated pods. */
  lemma HealthyPlan(pods: seq<Pod>, want: seq<Pod>, sync: SyncMap, d: Diff<PodBody>, maxUnavail: Option<IntOrPercent>)
    requires UniqueKeys(pods) && UniqueKeys(want) && IsDiff(d, pods, want) && Healthy(pods, sync)
    ensures var behind := Pick(BehindPod, pods, want, map[]);
      && |d.updates| == |behind|
      && Plan(pods, d.updates, sync, |pods|, maxUnavail) == behind[..Min(|behind|, Unavailable(maxUnavail, |pods|))]
  {
    HealthyPicks(pods, want, sync, d);
    UpdateCount(pods, want, sync, d);
    PickFrame(BehindPod, pods, want, sync, map[]);
    PickAll(ReachablePod, pods, [], sync);
    PickSize(BehindPod, pods, want, sync);
    var behind := Pick(BehindPod, pods, want, sync);
    var n := Budget(pods, sync, |pods|, maxUnavail);
    assert n == Min(|pods|, Unavailable(maxUnavail, |pods|));
    assert [] + behind[..Min(|behind|, n)] == behind[..Min(|behind|, n)];
  }

  lemma {:induction false} PickSize(kind: Kind, pods: seq<Pod>, updates: seq<Pod>, sync: SyncMap)
    ensures |Pick(kind, pods, updates, sync)| <= |pods|
  {
    if pods != [] {
      PickSize(kind, pods[..|pods| - 1], updates, sync);
    }
  }

  lemma UpdatedNames(pods: seq<Pod>, want: seq<Pod>, d: Diff<PodBody>, k: Key, sync: SyncMap)
    requires UniqueKeys(pods) && UniqueKeys(want) && IsDiff(d, pods, want)
    ensures HasKey(d.updates, k) <==> exists p :: p in pods && p.key == k && Is(BehindPod, p, want, sync)
  {
  }

  /**
   * The list of the next round: every terminating pod has been replaced by one of the wanted revision, with a UID of
   * its own, every other pod is still there, and the order is whatever the API server returns.
   */
  ghost predicate Replaced(pods: seq<Pod>, want: seq<Pod>, next: seq<Pod>) {
    && UniqueKeys(next) && (forall k :: HasKey(next, k) <==> HasKey(pods, k))
    && (forall q :: q in next ==> (q in pods && !q.body.terminating) || Recreated(pods, want, q))
    && (forall p :: p in pods && !p.body.terminating ==> p in next)
  }

  ghost predicate Recreated(pods: seq<Pod>, want: seq<Pod>, q: Pod) {
    && (exists p :: p in pods && p.key == q.key && p.body.terminating)
    && (exists w :: w in want && w.key == q.key && w.revision == q.revision)
  }

  /** A round of a rollout: what the controller sees, the diff it computes and whether it asks for another round. */
  datatype Turn = Turn(view: View, diff: Diff<PodBody>, requeue: bool)

  /**
   * One error-free round with all replicas present and in sync, as `RollOut` carries it out, up to the list of the
   * next round.
   */
  ghost predicate HealthyRound(r: Turn, next: seq<Pod>, want: seq<Pod>, replicas: nat, maxUnavail: Option<IntOrPercent>) {
    var pods, sync := r.view.pods, r.view.sync;
    var plan := Plan(pods, r.diff.updates, sync, replicas, maxUnavail);
    && UniqueKeys(pods) && |pods| == replicas && Healthy(pods, sync)
    && IsDiff(r.diff, pods, want) && r.diff.creates == [] && r.diff.deletes == []
    && (r.requeue <==> |plan| != |r.diff.updates|)
    && Replaced(TerminateAll(pods, plan), want, next)
  }

  /** A pod of the next list was left alone, or is up to date. */
  lemma NextIsOldOrNew(pods: seq<Pod>, want: seq<Pod>, gone: seq<Key>, next: seq<Pod>, q: Pod)
    requires UniqueKeys(want) && Replaced(TerminateAll(pods, gone), want, next) && q in next
    ensures (q in pods && q.key !in gone) || !Is(BehindPod, q, want, map[])
  {
    var after := TerminateAll(pods, gone);
    TerminateAllKeys(pods, gone);
    if q in after && !q.body.terminating {
      var i :| 0 <= i < |after| && after[i] == q;
    } else {
      assert Recreated(after, want, q);
      var w :| w in want && w.key == q.key && w.revision == q.revision;
      assert UpdateFor(want, q.key) == Some(w);
    }
  }

  /** A pod that was left alone is in the next list. */
  lemma LeftAloneStays(pods: seq<Pod>, want: seq<Pod>, gone: seq<Key>, next: seq<Pod>, p: Pod)
    requires Replaced(TerminateAll(pods, gone), want, next) && p in pods && !p.body.terminating && p.key !in gone
    ensures p in next
  {
    TerminateAllKeys(pods, gone);
    var i :| 0 <= i < |pods| && pods[i] == p;
    assert TerminateAll(pods, gone)[i] == p;
  }

  /** The pods behind after a round are those behind before it that the round left alone. */
  lemma BehindAfter(pods: seq<Pod>, want: seq<Pod>, gone: seq<Key>, next: seq<Pod>, k: Key)
    requires UniqueKeys(pods) && UniqueKeys(want) && (forall p :: p in pods ==> !p.body.terminating)
    requires Replaced(TerminateAll(pods, gone), want, next)
    ensures k in Pick(BehindPod, next, want, map[]) <==> k in Pick(BehindPod, pods, want, map[]) && k !in gone
  {
    PickSound(BehindPod, pods, want, map[]);
    PickSound(BehindPod, next, want, map[]);
    forall q | q in next ensures (q in pods && q.key !in gone) || !Is(BehindPod, q, want, map[]) {
      NextIsOldOrNew(pods, want, gone, next, q);
    }
    forall p | p in pods && p.key == k && k !in gone ensures p in next {
      LeftAloneStays(pods, want, gone, next, p);
    }
  }

  /**
   * One healthy round: exactly min(outdated, max(1, maxUnavailable)) fewer pods are outdated, and it asks for another
   * round iff it left an outdated pod alone.
   */
  lemma OneRound(r: Turn, next: seq<Pod>, want: seq<Pod>, replicas: nat, maxUnavail: Option<IntOrPercent>)
    requires UniqueKeys(want) && HealthyRound(r, next, want, replicas, maxUnavail)
    ensures var step := Unavailable(maxUnavail, replicas);
      && Behind(next, want) == Max(0, Behind(r.view.pods, want) - step)
      && (r.requeue <==> Behind(r.view.pods, want) > step)
  {
    var pods := r.view.pods;
    HealthyPlan(pods, want, r.view.sync, r.diff, maxUnavail);
    BehindShrinks(pods, want, next, Min(Behind(pods, want), Unavailable(maxUnavail, replicas)));
  }

  lemma BehindShrinks(pods: seq<Pod>, want: seq<Pod>, next: seq<Pod>, m: nat)
    requires UniqueKeys(pods) && UniqueKeys(want) && (forall p :: p in pods ==> !p.body.terminating)
    requires m <= Behind(pods, want) && Replaced(TerminateAll(pods, Pick(BehindPod, pods, want, map[])[..m]), want, next)
    ensures Behind(next, want) == Behind(pods, want) - m
  {
    var behind, after := Pick(BehindPod, pods, want, map[]), Pick(BehindPod, next, want, map[]);
    PickDistinct(BehindPod, pods, want, map[]);
    PickDistinct(BehindPod, next, want, map[]);
    forall k ensures k in after <==> k in behind[m..] {
      BehindAfter(pods, want, behind[..m], next, k);
      RestOf(behind, m, k);
    }
    SameSize(after, behind[m..]);
  }

  lemma RestOf(s: seq<Key>, m: nat, k: Key)
    requires Distinct(s) && m <= |s|
    ensures k in s[m..] <==> k in s && k !in s[..m]
  {
    assert s == s[..m] + s[m..];
  }

  /** The list that follows round `i`. */
  function Following(rounds: seq<Turn>, last: seq<Pod>, i: nat): seq<Pod> {
    if i + 1 < |rounds| then rounds[i + 1].view.pods else last
  }

  /** A rollout: each round starts from a list that the round before left behind. */
  ghost predicate Succession(rounds: seq<Turn>, last: seq<Pod>, want: seq<Pod>, replicas: nat, maxUnavail: Option<IntOrPercent>) {
    forall i :: 0 <= i < |rounds| ==> HealthyRound(rounds[i], Following(rounds, last, i), want, replicas, maxUnavail)
  }

  /** Each round by itself. */
  lemma EveryRound(rounds: seq<Turn>, last: seq<Pod>, want: seq<Pod>, replicas: nat, maxUnavail: Option<IntOrPercent>, i: nat)
    requires UniqueKeys(want) && Succession(rounds, last, want, replicas, maxUnavail) && i < |rounds|
    ensures var step, before := Unavailable(maxUnavail, replicas), Behind(rounds[i].view.pods, want);
      Behind(Following(rounds, last, i), want) == Max(0, before - step) && (rounds[i].requeue <==> before > step)
  {
    assert HealthyRound(rounds[i], Following(rounds, last, i), want, replicas, maxUnavail);
    OneRound(rounds[i], Following(rounds, last, i), want, replicas, maxUnavail);
  }

  /**
   * Convergence: after k rounds max(0, outdated − k·max(1, maxUnavailable)) pods are outdated, so the number falls
   * strictly until it is zero; a round asks for no further one exactly if it deletes all that are left, and then the
   * list that follows is up to date.
   */
  lemma {:induction false} RolloutConverges(rounds: seq<Turn>, last: seq<Pod>, want: seq<Pod>, replicas: nat,
                                            maxUnavail: Option<IntOrPercent>, i: nat)
    requires UniqueKeys(want) && Succession(rounds, last, want, replicas, maxUnavail) && i < |rounds|
    ensures var step, start := Unavailable(maxUnavail, replicas), Behind(rounds[0].view.pods, want);
      var before, after := Behind(rounds[i].view.pods, want), Behind(Following(rounds, last, i), want);
      && after == Max(0, start - (i + 1) * step)
      && (before > 0 ==> after < before)
      && (rounds[i].requeue <==> start > (i + 1) * step) && (!rounds[i].requeue <==> after == 0)
  {
    EveryRound(rounds, last, want, replicas, maxUnavail, i);
    if i > 0 {
      RolloutConverges(rounds, last, want, replicas, maxUnavail, i - 1);
    }
    OneMoreStep(i, Unavailable(maxUnavail, replicas));
  }

  lemma OneMoreStep(i: int, step: int)
    ensures i * step + step == (i + 1) * step
  {
  }
}
