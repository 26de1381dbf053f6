/**
 * The two-controller snapshot protocol: any number of ScheduledVolumeSnapshots and the CosmosFullNode they refer
 * to, interleaved with pods coming and going and with users editing specs.
 *
 * A snapshot reconcile (controllers/scheduledvolumesnapshot_controller.go) and the pod creation of a fullnode
 * reconcile (internal/fullnode/build_pods.go, internal/fullnode/pod_control.go) are atomic steps.
 */
module SnapshotProtocol {
  import opened Common
  import opened Names
  import opened SnapshotControl

  /** A VolumeSnapshot creation, with what was true when it was sent. */
  datatype Request = Request(key: Bytes, pvc: Bytes, deleting: bool, suspended: bool, users: set<Bytes>)

  /**
   * `pods` maps the name of every listed pod, terminating or not, to its ordinal, which fixes the PVC it mounts;
   * `holds` is the fullnode's status.scheduledSnapshotStatus.
   */
  datatype World = World(crd: Bytes, replicas: nat, disabled: set<nat>, pods: map<Bytes, nat>,
                         holds: map<Bytes, Bytes>, snaps: map<Bytes, Snap>, requests: seq<Request>)

  /** `BuildPods`: the ordinals whose pod is wanted. Held and disabled instances are left out. */
  ghost predicate WantsPod(w: World, i: nat) {
    i < w.replicas && i !in w.disabled && InstanceName(w.crd, i) !in w.holds.Values
  }

  /** The listed pods that mount a PVC. */
  function Users(w: World, pvc: Bytes): set<Bytes> {
    set n | n in w.pods && PvcName(w.crd, w.pods[n]) == pvc
  }

  datatype Event =
    | SnapshotReconcile(key: Bytes, replies: Replies)
    | FullNodeCreates(ordinal: nat)
    | PodsVanish(names: set<Bytes>)
    | NewSnapshot(key: Bytes, spec: SnapSpec)
    | EditSnapshot(key: Bytes, spec: SnapSpec)
    | EditFullNode(replicas: nat, disabled: set<nat>)

  /** A fullnode reconcile is any number of FullNodeCreates: deletion only makes a pod terminating, it stays listed. */
  ghost predicate Enabled(w: World, e: Event) {
    match e
    case SnapshotReconcile(key, r) =>
      key in w.snaps && NoNilDereference(key, w.snaps[key], w.holds) && forall i :: i in r.synced ==> Ordinal(i)
    case FullNodeCreates(i) => WantsPod(w, i)
    case PodsVanish(_) => true
    case NewSnapshot(key, _) => key !in w.snaps
    case EditSnapshot(key, _) => key in w.snaps
    case EditFullNode(replicas, _) => Ordinal(replicas)
  }

  function Reconciled(w: World, key: Bytes, r: Replies): Outcome
    requires key in w.snaps && NoNilDereference(key, w.snaps[key], w.holds)
  {
    SnapshotControl.Step(key, w.snaps[key], Found(w.crd, w.snaps[key].spec, r.synced), w.holds, w.pods.Keys, r)
  }

  /** The world after a reconcile: the snapshot's new status, its hold, and the request it sent, if any. */
  function Install(w: World, key: Bytes, out: Outcome): World
    requires key in w.snaps && (out.requested ==> w.snaps[key].candidate.Some?)
  {
    var s := w.snaps[key];
    var sent :=
      if out.requested then [Request(key, s.candidate.value.pvc, s.deleting, s.spec.suspend, Users(w, s.candidate.value.pvc))]
      else [];
    w.(snaps := w.snaps[key := out.snap], holds := out.holds, requests := w.requests + sent)
  }

  ghost function Next(w: World, e: Event): World
    requires Enabled(w, e)
  {
    match e
    case SnapshotReconcile(key, r) => Install(w, key, Reconciled(w, key, r))
    case FullNodeCreates(i) => w.(pods := w.pods[InstanceName(w.crd, i) := i])
    case PodsVanish(names) => w.(pods := w.pods - names)
    case NewSnapshot(key, spec) => w.(snaps := w.snaps[key := Snap(spec, Created, None, None, false, false)])
    case EditSnapshot(key, spec) => w.(snaps := w.snaps[key := w.snaps[key].(spec := spec)])
    case EditFullNode(replicas, disabled) => w.(replicas := replicas, disabled := disabled)
  }

  // ----- the invariant

  ghost predicate PodsNamed(w: World) {
    Ordinal(w.replicas) && forall n :: n in w.pods ==> Ordinal(w.pods[n]) && n == InstanceName(w.crd, w.pods[n])
  }

  /** A candidate is a pod of this fullnode together with the PVC of the same ordinal. */
  ghost predicate Paired(crd: Bytes, c: Candidate) {
    exists i: nat :: Ordinal(i) && c == CandidateOf(crd, i)
  }

  /** The phases in which a hold may stand. MissingCRDs only appears if the operator restarts without the CRDs. */
  predicate MayHold(phase: Phase) {
    phase.DeletingPod? || phase.WaitingForPodDeletion? || phase.Creating? || phase.WaitingForCreation? || phase.RestorePod? ||
    phase.MissingCRDs?
  }

  function HoldOf(holds: map<Bytes, Bytes>, key: Bytes): Option<Bytes> {
    if key in holds then Some(holds[key]) else None
  }

  /** Where one snapshot stands and what that says about its hold and about the listed pods. */
  ghost predicate Coherent(pods: set<Bytes>, hold: Option<Bytes>, s: Snap) {
    && (hold.Some? ==> s.candidate.Some? && hold.value == s.candidate.value.pod && s.deleting && MayHold(s.phase))
    && (s.confirmed && hold.Some? ==> s.candidate.value.pod !in pods)
    && match s.phase
       case DeletingPod => s.candidate.Some? && s.deleting && !s.confirmed
       case WaitingForPodDeletion => hold.Some? && !s.confirmed
       case Creating => s.candidate.Some? && (hold.Some? <==> s.deleting) && (s.deleting ==> s.confirmed)
       case WaitingForCreation =>
         s.candidate.Some? && s.lastSnapshot.Some? && (hold.Some? <==> s.deleting) && (s.deleting ==> s.confirmed)
       case _ => true
  }

  ghost predicate Own(w: World, key: Bytes)
    requires key in w.snaps
  {
    && Coherent(w.pods.Keys, HoldOf(w.holds, key), w.snaps[key])
    && (w.snaps[key].candidate.Some? ==> Paired(w.crd, w.snaps[key].candidate.value))
  }

  ghost predicate Inv(w: World) {
    && PodsNamed(w)
    && (forall k :: k in w.snaps ==> Own(w, k))
    && (forall k :: k in w.holds ==> k in w.snaps)
    && (forall i :: 0 <= i < |w.requests| ==> Quiet(w.requests[i]))
  }

  /** The promise: no snapshot while suspended, and no fullnode pod on the volume if the cycle deletes the pod. */
  predicate Quiet(q: Request) {
    !q.suspended && (q.deleting ==> q.users == {})
  }

  // ----- it is inductive

  /** With its candidate pod gone nobody mounts the candidate's PVC: PVC names are injective in the ordinal. */
  lemma NobodyMounts(w: World, c: Candidate)
    requires PodsNamed(w) && Paired(w.crd, c) && c.pod !in w.pods
    ensures Users(w, c.pvc) == {}
  {
    var i: nat :| Ordinal(i) && c == CandidateOf(w.crd, i);
    forall n | n in w.pods ensures PvcName(w.crd, w.pods[n]) != c.pvc {
      PvcNameInjective(w.crd, w.pods[n], i);
    }
  }

  /** One reconcile keeps its snapshot coherent, whatever the API server answers. */
  lemma StepStaysCoherent(key: Bytes, s: Snap, found: Option<Candidate>, holds: map<Bytes, Bytes>, pods: set<Bytes>, r: Replies)
    requires Coherent(pods, HoldOf(holds, key), s) && NoNilDereference(key, s, holds)
    ensures var out := SnapshotControl.Step(key, s, found, holds, pods, r);
      Coherent(pods, HoldOf(out.holds, key), out.snap)
  {
    match ResetPhase(s.spec.suspend, s.phase)
    case WaitingForNext =>
    case FindingCandidate =>
    case DeletingPod =>
    case WaitingForPodDeletion =>
    case Creating =>
    case WaitingForCreation =>
    case RestorePod =>
    case Created =>
    case Suspended =>
    case MissingCRDs =>
  }

  lemma StepTouchesOwnHold(key: Bytes, s: Snap, found: Option<Candidate>, holds: map<Bytes, Bytes>, pods: set<Bytes>, r: Replies)
    requires NoNilDereference(key, s, holds)
    ensures var out := SnapshotControl.Step(key, s, found, holds, pods, r);
      && (forall k :: k != key ==> HoldOf(out.holds, k) == HoldOf(holds, k))
      && (forall k :: k in out.holds ==> k in holds || k == key)
      && (out.requested ==> s.phase.Creating? && !s.spec.suspend && s.candidate.Some?)
      && (out.snap.candidate == s.candidate || (found.Some? && out.snap.candidate == found))
  {
  }

  lemma FoundIsPaired(crd: Bytes, spec: SnapSpec, synced: seq<nat>)
    requires forall i :: i in synced ==> Ordinal(i)
    ensures Found(crd, spec, synced).Some? ==> Paired(crd, Found(crd, spec, synced).value)
  {
  }

  /** A snapshot is requested only from the Creating phase, when a deletePod cycle has the pod gone and held. */
  lemma RequestIsQuiet(w: World, key: Bytes)
    requires Inv(w) && key in w.snaps && w.snaps[key].phase.Creating? && !w.snaps[key].spec.suspend
    ensures w.snaps[key].candidate.Some?
    ensures w.snaps[key].deleting ==> Users(w, w.snaps[key].candidate.value.pvc) == {}
  {
    assert Own(w, key);
    if w.snaps[key].deleting {
      NobodyMounts(w, w.snaps[key].candidate.value);
    }
  }

  ghost predicate Installable(w: World, key: Bytes, out: Outcome)
    requires key in w.snaps
  {
    && Coherent(w.pods.Keys, HoldOf(out.holds, key), out.snap)
    && (out.snap.candidate.Some? ==> Paired(w.crd, out.snap.candidate.value))
    && (forall k :: k != key ==> HoldOf(out.holds, k) == HoldOf(w.holds, k))
    && (forall k :: k in out.holds ==> k in w.holds || k == key)
    && (out.requested ==> w.snaps[key].phase.Creating? && !w.snaps[key].spec.suspend && w.snaps[key].candidate.Some?)
  }

  lemma InstallKeepsOwn(w: World, key: Bytes, out: Outcome, k: Bytes)
    requires Inv(w) && key in w.snaps && Installable(w, key, out) && k in w.snaps
    ensures Own(Install(w, key, out), k)
  {
  }

  lemma InstallKeepsInv(w: World, key: Bytes, out: Outcome)
    requires Inv(w) && key in w.snaps && Installable(w, key, out)
    ensures Inv(Install(w, key, out))
  {
    var w' := Install(w, key, out);
    forall k | k in w'.snaps ensures Own(w', k) {
      InstallKeepsOwn(w, key, out, k);
    }
    if out.requested {
      RequestIsQuiet(w, key);
    }
  }

  lemma ReconcileKeepsInv(w: World, key: Bytes, r: Replies)
    requires Inv(w) && Enabled(w, SnapshotReconcile(key, r))
    ensures Inv(Next(w, SnapshotReconcile(key, r)))
  {
    var s := w.snaps[key];
    var found := Found(w.crd, s.spec, r.synced);
    assert Own(w, key);
    StepStaysCoherent(key, s, found, w.holds, w.pods.Keys, r);
    StepTouchesOwnHold(key, s, found, w.holds, w.pods.Keys, r);
    FoundIsPaired(w.crd, s.spec, r.synced);
    InstallKeepsInv(w, key, Reconciled(w, key, r));
  }

  lemma PodChangeStaysCoherent(pods: set<Bytes>, pods': set<Bytes>, hold: Option<Bytes>, s: Snap)
    requires Coherent(pods, hold, s)
    requires forall n :: n in pods' ==> n in pods || hold != Some(n)
    ensures Coherent(pods', hold, s)
  {
  }

  /** A held pod is not wanted, so the fullnode controller does not bring it back; other pods do not matter. */
  lemma PodChangesKeepInv(w: World, e: Event)
    requires Inv(w) && Enabled(w, e) && (e.FullNodeCreates? || e.PodsVanish? || e.EditFullNode?)
    ensures Inv(Next(w, e))
  {
    var w' := Next(w, e);
    forall k | k in w'.snaps ensures Own(w', k) {
      assert Own(w, k);
      assert k in w.holds ==> w.holds[k] in w.holds.Values;
      PodChangeStaysCoherent(w.pods.Keys, w'.pods.Keys, HoldOf(w.holds, k), w.snaps[k]);
    }
  }

  lemma SnapshotEditsKeepInv(w: World, e: Event)
    requires Inv(w) && Enabled(w, e) && (e.NewSnapshot? || e.EditSnapshot?)
    ensures Inv(Next(w, e))
  {
    var w' := Next(w, e);
    forall k | k in w'.snaps ensures Own(w', k) {
      assert k in w.snaps ==> Own(w, k);
    }
  }

  /** Every step keeps the invariant. */
  lemma StepKeepsInv(w: World, e: Event)
    requires Inv(w) && Enabled(w, e)
    ensures Inv(Next(w, e))
  {
    if e.SnapshotReconcile? {
      ReconcileKeepsInv(w, e.key, e.replies);
    } else if e.NewSnapshot? || e.EditSnapshot? {
      SnapshotEditsKeepInv(w, e);
    } else {
      PodChangesKeepInv(w, e);
    }
  }

  // ----- every reachable state

  ghost predicate Initial(w: World) {
    PodsNamed(w) && w.snaps == map[] && w.holds == map[] && w.requests == []
  }

  ghost predicate Run(worlds: seq<World>, events: seq<Event>) {
    && |worlds| == |events| + 1 && Initial(worlds[0])
    && forall i :: 0 <= i < |events| ==> Enabled(worlds[i], events[i]) && worlds[i + 1] == Next(worlds[i], events[i])
  }

  lemma {:induction false} RunKeepsInv(worlds: seq<World>, events: seq<Event>, n: nat)
    requires Run(worlds, events) && n <= |events|
    ensures Inv(worlds[n])
  {
    if n > 0 {
      RunKeepsInv(worlds, events, n - 1);
      StepKeepsInv(worlds[n - 1], events[n - 1]);
    }
  }

  /**
   * Quiet PVC: in every reachable state, every VolumeSnapshot that was ever requested was requested with Suspend
   * off and, in a deletePod cycle, with no fullnode pod mounting the volume.
   */
  lemma QuietVolumes(worlds: seq<World>, events: seq<Event>, n: nat, q: Request)
    requires Run(worlds, events) && n <= |events| && q in worlds[n].requests
    ensures !q.suspended && (q.deleting ==> q.users == {})
  {
    RunKeepsInv(worlds, events, n);
    var i :| 0 <= i < |worlds[n].requests| && worlds[n].requests[i] == q;
    assert Quiet(worlds[n].requests[i]);
  }

  /** From the confirmed deletion until the hold is released, the candidate pod does not exist and its PVC is free. */
  lemma CandidateStaysGone(worlds: seq<World>, events: seq<Event>, n: nat, key: Bytes)
    requires Run(worlds, events) && n <= |events|
    requires key in worlds[n].snaps && key in worlds[n].holds && worlds[n].snaps[key].confirmed
    ensures worlds[n].snaps[key].candidate.Some?
    ensures var c := worlds[n].snaps[key].candidate.value;
      c.pod !in worlds[n].pods && Users(worlds[n], c.pvc) == {}
  {
    RunKeepsInv(worlds, events, n);
    var w := worlds[n];
    assert Own(w, key);
    NobodyMounts(w, w.snaps[key].candidate.value);
  }

  /**
   * Hold and release: a hold always names its own snapshot's candidate; it stands while waiting for the deletion,
   * stands through creation exactly in deletePod cycles, and never stands while waiting, searching or suspended.
   */
  lemma HoldsMatchPhases(worlds: seq<World>, events: seq<Event>, n: nat, key: Bytes)
    requires Run(worlds, events) && n <= |events| && key in worlds[n].snaps
    ensures var w, s := worlds[n], worlds[n].snaps[key];
      && (key in w.holds ==> s.candidate.Some? && w.holds[key] == s.candidate.value.pod)
      && (s.phase == WaitingForPodDeletion ==> key in w.holds)
      && (s.phase == Creating || s.phase == WaitingForCreation ==> (key in w.holds <==> s.deleting))
      && (s.phase == Created || s.phase == WaitingForNext || s.phase == FindingCandidate || s.phase == Suspended ==>
            key !in w.holds)
  {
    RunKeepsInv(worlds, events, n);
    assert Own(worlds[n], key);
  }

  /** No reachable reconcile dereferences a missing candidate or last snapshot. */
  lemma NeverDereferencesNil(worlds: seq<World>, events: seq<Event>, n: nat, key: Bytes)
    requires Run(worlds, events) && n <= |events| && key in worlds[n].snaps
    ensures NoNilDereference(key, worlds[n].snaps[key], worlds[n].holds)
  {
    RunKeepsInv(worlds, events, n);
    assert Own(worlds[n], key);
  }

  // ----- a cycle completes

  predicate Favourable(r: Replies) {
    !r.missingCRDs && r.signal.Acked? && r.listed && r.create.Acked? && r.ready.ReadyOrGone? && r.restore.Acked?
  }

  /** An unsuspended deletePod cycle with candidate `c` under way. */
  function Going(spec: SnapSpec, phase: Phase, c: Candidate, last: Option<string>, confirmed: bool): Snap {
    Snap(spec, phase, Some(c), last, true, confirmed)
  }

  lemma FoundStep(key: Bytes, s: Snap, c: Candidate, holds: map<Bytes, Bytes>, pods: set<Bytes>, r: Replies)
    requires s.phase.FindingCandidate? && !s.spec.suspend && s.spec.deletePod && Favourable(r)
    ensures SnapshotControl.Step(key, s, Some(c), holds, pods, r) ==
      Outcome(Going(s.spec, DeletingPod, c, s.lastSnapshot, false), holds, false)
  {
  }

  lemma SignalStep(key: Bytes, s: Snap, c: Candidate, found: Option<Candidate>, holds: map<Bytes, Bytes>, pods: set<Bytes>, r: Replies)
    requires !s.spec.suspend && Favourable(r) && s == Going(s.spec, DeletingPod, c, s.lastSnapshot, false)
    ensures SnapshotControl.Step(key, s, found, holds, pods, r) ==
      Outcome(Going(s.spec, WaitingForPodDeletion, c, s.lastSnapshot, false), holds[key := c.pod], false)
  {
  }

  lemma ConfirmStep(key: Bytes, s: Snap, c: Candidate, found: Option<Candidate>, holds: map<Bytes, Bytes>, pods: set<Bytes>, r: Replies)
    requires !s.spec.suspend && Favourable(r) && s == Going(s.spec, WaitingForPodDeletion, c, s.lastSnapshot, false)
    ensures SnapshotControl.Step(key, s, found, holds, pods, r) ==
      Outcome(if c.pod in pods then s else Going(s.spec, Creating, c, s.lastSnapshot, true), holds, false)
  {
  }

  lemma CreateStep(key: Bytes, s: Snap, c: Candidate, found: Option<Candidate>, holds: map<Bytes, Bytes>, pods: set<Bytes>, r: Replies)
    requires !s.spec.suspend && Favourable(r) && s == Going(s.spec, Creating, c, s.lastSnapshot, true)
    ensures SnapshotControl.Step(key, s, found, holds, pods, r) ==
      Outcome(Going(s.spec, WaitingForCreation, c, Some(r.snapshotName), true), holds, true)
  {
  }

  /** A snapshot, the holds, and the number of VolumeSnapshots requested so far. */
  datatype Progress = Progress(snap: Snap, holds: map<Bytes, Bytes>, requests: nat)

  /** One reconcile. */
  function Once(key: Bytes, p: Progress, found: Option<Candidate>, pods: set<Bytes>, r: Replies): Progress {
    if NoNilDereference(key, p.snap, p.holds) then
      var out := SnapshotControl.Step(key, p.snap, found, p.holds, pods, r);
      Progress(out.snap, out.holds, p.requests + if out.requested then 1 else 0)
    else p
  }

  /** The first `n` of a row of reconciles, each of which sees the pods listed at its own time. */
  function After(n: nat, key: Bytes, p: Progress, found: Option<Candidate>, pods: seq<set<Bytes>>, r: Replies): Progress
    requires n <= |pods|
  {
    if n == 0 then p else Once(key, After(n - 1, key, p, found, pods, r), found, pods[n - 1], r)
  }

  /** While the candidate is listed the cycle waits, holding it. */
  lemma {:induction false} Waits(n: nat, key: Bytes, s: Snap, c: Candidate, holds: map<Bytes, Bytes>, pods: seq<set<Bytes>>, r: Replies)
    requires s.phase.FindingCandidate? && !s.spec.suspend && s.spec.deletePod && Favourable(r)
    requires 2 <= n <= |pods| && forall i :: 2 <= i < n ==> c.pod in pods[i]
    ensures After(n, key, Progress(s, holds, 0), Some(c), pods, r) ==
      Progress(Going(s.spec, WaitingForPodDeletion, c, s.lastSnapshot, false), holds[key := c.pod], 0)
  {
    var p := Progress(s, holds, 0);
    if n == 2 {
      FoundStep(key, s, c, holds, pods[0], r);
      assert After(0, key, p, Some(c), pods, r) == p;
      var found := Going(s.spec, DeletingPod, c, s.lastSnapshot, false);
      assert After(1, key, p, Some(c), pods, r) == Progress(found, holds, 0);
      SignalStep(key, found, c, Some(c), holds, pods[1], r);
    } else {
      Waits(n - 1, key, s, c, holds, pods, r);
      ConfirmStep(key, Going(s.spec, WaitingForPodDeletion, c, s.lastSnapshot, false), c, Some(c), holds[key := c.pod], pods[n - 1], r);
    }
  }

  /**
   * With every call acknowledged a deletePod cycle holds its candidate, waits for as long as the pod is listed,
   * requests one VolumeSnapshot once it is gone, releases the hold and waits for the next, leaving the holds of
   * others as they were. Which pods are listed before the signal and after the confirmation does not matter.
   */
  lemma DeletePodCycleCompletes(key: Bytes, s: Snap, c: Candidate, holds: map<Bytes, Bytes>, pods: seq<set<Bytes>>, r: Replies,
                                n: nat, i: nat)
    requires s.phase.FindingCandidate? && !s.spec.suspend && s.spec.deletePod && Favourable(r)
    requires 2 <= n && |pods| == n + 4 && c.pod !in pods[n] && forall j :: 2 <= j < n ==> c.pod in pods[j]
    requires i <= n + 4
    ensures var p, held := After(i, key, Progress(s, holds, 0), Some(c), pods, r), holds[key := c.pod];
      if i < 2 then p.holds == holds && p.requests == 0
      else if i <= n + 1 then p.holds == held && p.requests == 0
      else if i <= n + 3 then p.holds == held && p.requests == 1
      else p == Progress(Going(s.spec, WaitingForNext, c, Some(r.snapshotName), true), holds - {key}, 1)
  {
    var p := Progress(s, holds, 0);
    if i < 2 {
      FoundStep(key, s, c, holds, pods[0], r);
      assert After(0, key, p, Some(c), pods, r) == p;
      assert After(1, key, p, Some(c), pods, r) == Once(key, p, Some(c), pods[0], r);
    } else if i <= n {
      Waits(i, key, s, c, holds, pods, r);
    } else {
      Waits(n, key, s, c, holds, pods, r);
      Finishes(n, key, s, c, holds, pods, r);
    }
  }

  /** The second half: confirmed, requested, ready, released. */
  lemma Finishes(n: nat, key: Bytes, s: Snap, c: Candidate, holds: map<Bytes, Bytes>, pods: seq<set<Bytes>>, r: Replies)
    requires !s.spec.suspend && Favourable(r) && |pods| == n + 4 && c.pod !in pods[n]
    requires After(n, key, Progress(s, holds, 0), Some(c), pods, r) ==
      Progress(Going(s.spec, WaitingForPodDeletion, c, s.lastSnapshot, false), holds[key := c.pod], 0)
    ensures var p, held, last := Progress(s, holds, 0), holds[key := c.pod], Some(r.snapshotName);
      && After(n + 1, key, p, Some(c), pods, r) == Progress(Going(s.spec, Creating, c, s.lastSnapshot, true), held, 0)
      && After(n + 2, key, p, Some(c), pods, r) == Progress(Going(s.spec, WaitingForCreation, c, last, true), held, 1)
      && After(n + 3, key, p, Some(c), pods, r) == Progress(Going(s.spec, RestorePod, c, last, true), held, 1)
      && After(n + 4, key, p, Some(c), pods, r) == Progress(Going(s.spec, WaitingForNext, c, last, true), holds - {key}, 1)
  {
    var p, held, last := Progress(s, holds, 0), holds[key := c.pod], Some(r.snapshotName);
    ConfirmStep(key, Going(s.spec, WaitingForPodDeletion, c, s.lastSnapshot, false), c, Some(c), held, pods[n], r);
    assert After(n + 1, key, p, Some(c), pods, r) == Progress(Going(s.spec, Creating, c, s.lastSnapshot, true), held, 0);
    assert After(n + 2, key, p, Some(c), pods, r) == Progress(Going(s.spec, WaitingForCreation, c, last, true), held, 1);
    assert After(n + 3, key, p, Some(c), pods, r) == Progress(Going(s.spec, RestorePod, c, last, true), held, 1);
    assert held - {key} == holds - {key};
  }

  /** Without deletePod the cycle requests its snapshot and never touches a hold. */
  lemma PlainCycleCompletes(key: Bytes, s: Snap, c: Candidate, holds: map<Bytes, Bytes>, pods: seq<set<Bytes>>, r: Replies)
    requires s.phase.FindingCandidate? && !s.spec.suspend && !s.spec.deletePod && Favourable(r) && r.got && key !in holds
    requires |pods| == 4
    ensures var end := After(4, key, Progress(s, holds, 0), Some(c), pods, r);
      end.snap.phase.WaitingForNext? && end.holds == holds && end.requests == 1
  {
    var p := Progress(s, holds, 0);
    assert After(0, key, p, Some(c), pods, r) == p;
    var p1 := After(1, key, p, Some(c), pods, r);
    assert p1.snap.phase.Creating? && p1.snap.candidate == Some(c) && p1.snap.spec == s.spec && p1.holds == holds;
    var p2 := After(2, key, p, Some(c), pods, r);
    assert p2.snap == p1.snap.(phase := WaitingForCreation, lastSnapshot := Some(r.snapshotName)) && p2.requests == 1;
    var p3 := After(3, key, p, Some(c), pods, r);
    assert p3.snap == p2.snap.(phase := RestorePod) && p3.holds == holds && p3.requests == 1;
    assert After(4, key, p, Some(c), pods, r) == Once(key, p3, Some(c), pods[3], r);
  }

  // ----- why a phase is entered, and why a hold ends

  /** Unsuspended and with the CRDs present, each phase is entered exactly for its own reason: up to the snapshot. */
  lemma CycleBeginsExactly(key: Bytes, s: Snap, found: Option<Candidate>, holds: map<Bytes, Bytes>, pods: set<Bytes>, r: Replies)
    requires NoNilDereference(key, s, holds) && !s.spec.suspend && !r.missingCRDs
    ensures var q, t := s.phase, SnapshotControl.Step(key, s, found, holds, pods, r).snap.phase;
      && (t.FindingCandidate? && !q.FindingCandidate? <==> (q.Created? || q.Suspended? || q.WaitingForNext?) && r.schedule.Due?)
      && (t.DeletingPod? && !q.DeletingPod? <==> q.FindingCandidate? && found.Some? && s.spec.deletePod)
      && (t.WaitingForPodDeletion? && !q.WaitingForPodDeletion? <==> q.DeletingPod? && r.signal.Acked?)
      && (t.Creating? && !q.Creating? <==>
            || (q.FindingCandidate? && found.Some? && !s.spec.deletePod)
            || (q.WaitingForPodDeletion? && r.listed && s.candidate.value.pod !in pods))
  {
  }

  /** And from the snapshot on. */
  lemma CycleEndsExactly(key: Bytes, s: Snap, found: Option<Candidate>, holds: map<Bytes, Bytes>, pods: set<Bytes>, r: Replies)
    requires NoNilDereference(key, s, holds) && !s.spec.suspend && !r.missingCRDs
    ensures var q, t := s.phase, SnapshotControl.Step(key, s, found, holds, pods, r).snap.phase;
      && (t.WaitingForCreation? && !q.WaitingForCreation? <==> q.Creating? && r.create.Acked?)
      && (t.RestorePod? && !q.RestorePod? <==> q.WaitingForCreation? && r.ready.ReadyOrGone?)
      && (t.WaitingForNext? && !q.WaitingForNext? <==>
            || ((q.Created? || q.Suspended?) && !r.schedule.Due?)
            || (q.RestorePod? && (r.restore.Acked? || (r.got && key !in holds))))
      && !t.Created? && !t.Suspended? && (t.MissingCRDs? <==> q.MissingCRDs?)
  {
  }

  /** What a reconcile writes besides the phase: its request, its last snapshot and its candidate. */
  lemma WritesExactly(key: Bytes, s: Snap, found: Option<Candidate>, holds: map<Bytes, Bytes>, pods: set<Bytes>, r: Replies)
    requires NoNilDereference(key, s, holds) && !r.missingCRDs
    ensures var out := SnapshotControl.Step(key, s, found, holds, pods, r);
      var on := !s.spec.suspend;
      && (out.requested <==> on && s.phase.Creating? && Took(r.create))
      && out.snap.lastSnapshot == (if on && s.phase.Creating? && r.create.Acked? then Some(r.snapshotName) else s.lastSnapshot)
      && out.snap.candidate == (if on && s.phase.FindingCandidate? && found.Some? then found else s.candidate)
  {
  }

  /** And its hold, which it changes only by the two signals. */
  lemma HoldsExactly(key: Bytes, s: Snap, found: Option<Candidate>, holds: map<Bytes, Bytes>, pods: set<Bytes>, r: Replies)
    requires NoNilDereference(key, s, holds) && !r.missingCRDs
    ensures var out := SnapshotControl.Step(key, s, found, holds, pods, r);
      var restoring := s.spec.suspend || s.phase.RestorePod?;
      out.holds == if !s.spec.suspend && s.phase.DeletingPod? && Took(r.signal) then holds[key := s.candidate.value.pod]
                   else if restoring && Took(r.restore) then holds - {key}
                   else holds
  {
  }

  /** A suspended reconcile gives the pod back and requests nothing. */
  lemma SuspendRestores(key: Bytes, s: Snap, found: Option<Candidate>, holds: map<Bytes, Bytes>, pods: set<Bytes>, r: Replies)
    requires NoNilDereference(key, s, holds) && s.spec.suspend && !r.missingCRDs
    ensures var out := SnapshotControl.Step(key, s, found, holds, pods, r);
      && !out.requested
      && out.snap == s.(phase := if r.restore.Acked? || (r.got && key !in holds) then Suspended else RestorePod)
      && (out.snap.phase.Suspended? ==> key !in out.holds)
  {
  }

  /** Without the CRDs nothing happens but the phase saying so. */
  lemma MissingCRDsDoNothing(key: Bytes, s: Snap, found: Option<Candidate>, holds: map<Bytes, Bytes>, pods: set<Bytes>, r: Replies)
    requires NoNilDereference(key, s, holds) && r.missingCRDs
    ensures SnapshotControl.Step(key, s, found, holds, pods, r) == Outcome(s.(phase := MissingCRDs), holds, false)
  {
  }

  /** A reconcile that ends a cycle: Suspend is set, or the snapshot is reported ready or gone. */
  ghost predicate EndsCycle(w: World, e: Event, key: Bytes) {
    && e.SnapshotReconcile? && e.key == key && key in w.snaps
    && (w.snaps[key].spec.suspend || (w.snaps[key].phase.WaitingForCreation? && e.replies.ready.ReadyOrGone?))
  }

  /** Event `m` ended the cycle and the snapshot has been restoring ever since. */
  ghost predicate EndedAt(worlds: seq<World>, events: seq<Event>, key: Bytes, m: nat, n: nat)
    requires m < n < |worlds| && |worlds| == |events| + 1
  {
    && EndsCycle(worlds[m], events[m], key)
    && forall j :: m < j <= n ==> key in worlds[j].snaps && worlds[j].snaps[key].phase.RestorePod?
  }

  /** One event: restoring begins with the end of a cycle and is otherwise carried over. */
  lemma RestoringBegins(w: World, e: Event, key: Bytes)
    requires Inv(w) && Enabled(w, e)
    requires key in Next(w, e).snaps && Next(w, e).snaps[key].phase.RestorePod? && !EndsCycle(w, e, key)
    ensures key in w.snaps && w.snaps[key].phase.RestorePod?
  {
    if e.SnapshotReconcile? && e.key == key && !e.replies.missingCRDs {
      CycleEndsExactly(key, w.snaps[key], Found(w.crd, w.snaps[key].spec, e.replies.synced), w.holds, w.pods.Keys, e.replies);
    }
  }

  lemma {:induction false} RestoringHasReason(worlds: seq<World>, events: seq<Event>, n: nat, key: Bytes) returns (m: nat)
    requires Run(worlds, events) && n <= |events|
    requires key in worlds[n].snaps && worlds[n].snaps[key].phase.RestorePod?
    ensures m < n && EndedAt(worlds, events, key, m, n)
  {
    RunKeepsInv(worlds, events, n - 1);
    if EndsCycle(worlds[n - 1], events[n - 1], key) {
      m := n - 1;
    } else {
      RestoringBegins(worlds[n - 1], events[n - 1], key);
      m := RestoringHasReason(worlds, events, n - 1, key);
    }
  }

  lemma ReleaseIsRestoring(w: World, e: Event, key: Bytes)
    requires Inv(w) && Enabled(w, e) && key in w.holds && key !in Next(w, e).holds
    ensures e.SnapshotReconcile? && e.key == key && key in w.snaps
    ensures w.snaps[key].spec.suspend || w.snaps[key].phase.RestorePod?
  {
    if e.SnapshotReconcile? {
      var s := w.snaps[e.key];
      StepTouchesOwnHold(e.key, s, Found(w.crd, s.spec, e.replies.synced), w.holds, w.pods.Keys, e.replies);
      assert e.key != key ==> HoldOf(Reconciled(w, e.key, e.replies).holds, key) == HoldOf(w.holds, key);
      if !e.replies.missingCRDs {
        HoldsExactly(e.key, s, Found(w.crd, s.spec, e.replies.synced), w.holds, w.pods.Keys, e.replies);
      }
    }
  }

  /**
   * The wait for the snapshot: on every run a hold is released only by its own snapshot, and only because Suspend was
   * set or the snapshot was reported ready or gone, at that reconcile or at an earlier one since when it has been
   * restoring the pod.
   */
  lemma HeldUntilReady(worlds: seq<World>, events: seq<Event>, n: nat, key: Bytes) returns (m: nat)
    requires Run(worlds, events) && n < |events| && key in worlds[n].holds && key !in worlds[n + 1].holds
    ensures m <= n && EndsCycle(worlds[m], events[m], key)
    ensures m < n ==> EndedAt(worlds, events, key, m, n)
  {
    RunKeepsInv(worlds, events, n);
    ReleaseIsRestoring(worlds[n], events[n], key);
    if worlds[n].snaps[key].spec.suspend {
      m := n;
    } else {
      m := RestoringHasReason(worlds, events, n, key);
    }
  }

  // ----- what a fixed fullnode is needed for

  /**
   * The steps above keep a snapshot on one fullnode. If its fullNodeRef is pointed at another one while it waits, the
   * pods of that one (`elsewhere`) are asked for the candidate: the deletion is confirmed at once, and the next
   * reconcile requests the snapshot although the candidate is still up and mounts the volume.
   */
  lemma MovedRefConfirmsEarly(w: World, key: Bytes, c: Candidate, elsewhere: set<Bytes>, r: Replies)
    requires Inv(w) && key in w.snaps && !w.snaps[key].spec.suspend && Favourable(r)
    requires w.snaps[key] == Going(w.snaps[key].spec, WaitingForPodDeletion, c, w.snaps[key].lastSnapshot, false)
    requires c.pod in w.pods && c.pod !in elsewhere
    ensures var confirmed := Once(key, Progress(w.snaps[key], w.holds, 0), None, elsewhere, r);
      confirmed.snap.phase.Creating? && Once(key, confirmed, None, elsewhere, r).requests == 1
    ensures c.pod in Users(w, c.pvc)
  {
    assert Own(w, key);
    ConfirmsAndCreates(key, w.snaps[key], c, w.holds, elsewhere, r);
    CandidateMounts(w, c);
  }

  lemma ConfirmsAndCreates(key: Bytes, s: Snap, c: Candidate, holds: map<Bytes, Bytes>, pods: set<Bytes>, r: Replies)
    requires !s.spec.suspend && Favourable(r) && s == Going(s.spec, WaitingForPodDeletion, c, s.lastSnapshot, false) && c.pod !in pods
    ensures var confirmed := Once(key, Progress(s, holds, 0), None, pods, r);
      confirmed.snap.phase.Creating? && Once(key, confirmed, None, pods, r).requests == 1
  {
    ConfirmStep(key, s, c, None, holds, pods, r);
    CreateStep(key, Going(s.spec, Creating, c, s.lastSnapshot, true), c, None, holds, pods, r);
  }

  /** A candidate that is listed mounts its own claim. */
  lemma CandidateMounts(w: World, c: Candidate)
    requires PodsNamed(w) && Paired(w.crd, c) && c.pod in w.pods
    ensures c.pod in Users(w, c.pvc)
  {
    var i: nat :| Ordinal(i) && c == CandidateOf(w.crd, i);
    InstanceNameInjective(w.crd, w.pods[c.pod], i);
  }

  // ----- what atomicity is needed for

  /** A creation decided from an earlier read of the holds. */
  function Recreated(w: World, i: nat): World {
    w.(pods := w.pods[InstanceName(w.crd, i) := i])
  }

  lemma StaleCreateHarmless(w: World, i: nat)
    requires Inv(w) && Ordinal(i)
    requires forall k :: k in w.holds && w.snaps[k].confirmed ==> w.holds[k] != InstanceName(w.crd, i)
    ensures Inv(Recreated(w, i))
  {
  }

  lemma StaleCreateHarmful(w: World, i: nat, k: Bytes)
    requires Inv(w) && k in w.holds && w.snaps[k].confirmed && w.holds[k] == InstanceName(w.crd, i)
    ensures !Own(Recreated(w, i), k)
  {
    assert Own(w, k);
  }

  /**
   * Creating a pod from a stale read is harmless unless, by now, a snapshot holds that very pod and has confirmed
   * its deletion; then it breaks the protocol.
   */
  lemma StaleCreateExactly(w: World, i: nat)
    requires Inv(w) && Ordinal(i)
    ensures Inv(Recreated(w, i)) <==>
      forall k :: k in w.holds && w.snaps[k].confirmed ==> w.holds[k] != InstanceName(w.crd, i)
  {
    if forall k :: k in w.holds && w.snaps[k].confirmed ==> w.holds[k] != InstanceName(w.crd, i) {
      StaleCreateHarmless(w, i);
    } else {
      var k :| k in w.holds && w.snaps[k].confirmed && w.holds[k] == InstanceName(w.crd, i);
      StaleCreateHarmful(w, i, k);
    }
  }

  /** A reconcile whose search, if any, is answered with pods that are listed. */
  ghost predicate AnsweredFromList(w: World, e: Event) {
    e.SnapshotReconcile? ==> forall i :: i in e.replies.synced ==> InstanceName(w.crd, i) in w.pods
  }

  const SPEC := SnapSpec(false, true, 0, None)

  const GOOD := Replies(false, Due, [], Acked, true, Acked, "", ReadyOrGone, true, Acked)

  const SEARCH := GOOD.(synced := [0, 1])

  /** A world of two replicas with one snapshot. */
  function Two(crd: Bytes, key: Bytes, listed: map<Bytes, nat>, holds: map<Bytes, Bytes>, s: Snap): World {
    World(crd, 2, {}, listed, holds, map[key := s], [])
  }

  function Both(crd: Bytes): map<Bytes, nat> {
    map[InstanceName(crd, 0) := 0, InstanceName(crd, 1) := 1]
  }

  /** A reconcile that sends no request changes its own snapshot and the holds. */
  lemma Reconciles(crd: Bytes, key: Bytes, listed: map<Bytes, nat>, holds: map<Bytes, Bytes>, s: Snap, r: Replies, out: Outcome)
    requires NoNilDereference(key, s, holds) && (forall i :: i in r.synced ==> Ordinal(i)) && !out.requested
    requires SnapshotControl.Step(key, s, Found(crd, s.spec, r.synced), holds, listed.Keys, r) == out
    ensures var w := Two(crd, key, listed, holds, s);
      && Enabled(w, SnapshotReconcile(key, r))
      && Next(w, SnapshotReconcile(key, r)) == Two(crd, key, listed, out.holds, out.snap)
  {
    var w := Two(crd, key, listed, holds, s);
    assert w.requests + [] == w.requests;
    assert w.snaps[key := out.snap] == map[key := out.snap];
  }

  /** The worlds of the run below. */
  function Stage(crd: Bytes, key: Bytes, n: nat): World {
    var c, held := CandidateOf(crd, 0), map[key := InstanceName(crd, 0)];
    var one := map[InstanceName(crd, 1) := 1];
    if n == 0 then World(crd, 2, {}, Both(crd), map[], map[], [])
    else if n == 1 then Two(crd, key, Both(crd), map[], Snap(SPEC, Created, None, None, false, false))
    else if n == 2 then Two(crd, key, Both(crd), map[], Snap(SPEC, FindingCandidate, None, None, false, false))
    else if n == 3 then Two(crd, key, Both(crd), map[], Going(SPEC, DeletingPod, c, None, false))
    else if n == 4 then Two(crd, key, Both(crd), held, Going(SPEC, WaitingForPodDeletion, c, None, false))
    else if n == 5 then Two(crd, key, one, held, Going(SPEC, WaitingForPodDeletion, c, None, false))
    else Two(crd, key, one, held, Going(SPEC, Creating, c, None, true))
  }

  function Happens(crd: Bytes, key: Bytes, n: nat): Event {
    if n == 0 then NewSnapshot(key, SPEC)
    else if n == 2 then SnapshotReconcile(key, SEARCH)
    else if n == 4 then PodsVanish({InstanceName(crd, 0)})
    else SnapshotReconcile(key, GOOD)
  }

  lemma StageBegins(crd: Bytes, key: Bytes)
    ensures Initial(Stage(crd, key, 0))
    ensures forall n: nat :: n < 2 ==> Enabled(Stage(crd, key, n), Happens(crd, key, n)) && AnsweredFromList(Stage(crd, key, n), Happens(crd, key, n))
    ensures forall n: nat :: n < 2 ==> Next(Stage(crd, key, n), Happens(crd, key, n)) == Stage(crd, key, n + 1)
  {
    var s := Snap(SPEC, Created, None, None, false, false);
    Reconciles(crd, key, Both(crd), map[], s, GOOD, Outcome(s.(phase := FindingCandidate), map[], false));
  }

  lemma StageSearches(crd: Bytes, key: Bytes)
    ensures forall n: nat :: 2 <= n < 4 ==> Enabled(Stage(crd, key, n), Happens(crd, key, n)) && AnsweredFromList(Stage(crd, key, n), Happens(crd, key, n))
    ensures forall n: nat :: 2 <= n < 4 ==> Next(Stage(crd, key, n), Happens(crd, key, n)) == Stage(crd, key, n + 1)
  {
    var c := CandidateOf(crd, 0);
    var s, found := Snap(SPEC, FindingCandidate, None, None, false, false), Going(SPEC, DeletingPod, c, None, false);
    assert Found(crd, SPEC, [0, 1]) == Some(c);
    FoundStep(key, s, c, map[], Both(crd).Keys, SEARCH);
    Reconciles(crd, key, Both(crd), map[], s, SEARCH, Outcome(found, map[], false));
    SignalStep(key, found, c, Found(crd, SPEC, []), map[], Both(crd).Keys, GOOD);
    assert (map[])[key := c.pod] == map[key := c.pod];
    Reconciles(crd, key, Both(crd), map[], found, GOOD,
               Outcome(Going(SPEC, WaitingForPodDeletion, c, None, false), map[key := c.pod], false));
  }

  lemma StageConfirms(crd: Bytes, key: Bytes)
    ensures forall n: nat :: 4 <= n < 6 ==> Enabled(Stage(crd, key, n), Happens(crd, key, n)) && AnsweredFromList(Stage(crd, key, n), Happens(crd, key, n))
    ensures forall n: nat :: 4 <= n < 6 ==> Next(Stage(crd, key, n), Happens(crd, key, n)) == Stage(crd, key, n + 1)
  {
    var c := CandidateOf(crd, 0);
    var held, one := map[key := c.pod], map[InstanceName(crd, 1) := 1];
    InstanceNameInjective(crd, 0, 1);
    assert Both(crd) - {InstanceName(crd, 0)} == one;
    var s := Going(SPEC, WaitingForPodDeletion, c, None, false);
    ConfirmStep(key, s, c, Found(crd, SPEC, []), held, one.Keys, GOOD);
    Reconciles(crd, key, one, held, s, GOOD, Outcome(Going(SPEC, Creating, c, None, true), held, false));
  }

  /** After the stale creation the next reconcile requests a snapshot of a volume that the new pod mounts. */
  lemma StaleCreateRequests(crd: Bytes, key: Bytes)
    ensures var w := Recreated(Stage(crd, key, 6), 0);
      && Enabled(w, SnapshotReconcile(key, GOOD))
      && var n := Next(w, SnapshotReconcile(key, GOOD));
         |n.requests| == 1 && n.requests[0].deleting && InstanceName(crd, 0) in n.requests[0].users && !Quiet(n.requests[0])
  {
    var w, c := Recreated(Stage(crd, key, 6), 0), CandidateOf(crd, 0);
    var s := Going(SPEC, Creating, c, None, true);
    CreateStep(key, s, c, Found(crd, SPEC, []), w.holds, w.pods.Keys, GOOD);
    RequestSent(w, key, GOOD, c);
    assert InstanceName(crd, 0) in Users(w, c.pvc);
  }

  /** The request that a reconcile sends records who mounts the candidate's volume at that moment. */
  lemma RequestSent(w: World, key: Bytes, r: Replies, c: Candidate)
    requires Enabled(w, SnapshotReconcile(key, r)) && w.snaps[key].candidate == Some(c) && Reconciled(w, key, r).requested
    ensures var s := w.snaps[key];
      Next(w, SnapshotReconcile(key, r)).requests == w.requests + [Request(key, c.pvc, s.deleting, s.spec.suspend, Users(w, c.pvc))]
  {
  }

  lemma StageWants(crd: Bytes, key: Bytes)
    ensures WantsPod(Stage(crd, key, 3), 0) && InstanceName(crd, 0) !in Stage(crd, key, 5).pods
  {
    InstanceNameInjective(crd, 0, 1);
  }

  /**
   * A stale read breaks the promise: both pods are listed when pod 0 is found, and it is still wanted as long as it is
   * not held (world 3). It is then held, deleted (world 5) and confirmed gone (world 6). A fullnode reconcile that
   * read the holds in world 3 and the pods in world 5 creates it, and the next snapshot reconcile requests a snapshot
   * of a volume in use.
   */
  lemma StaleReadIsReachable(crd: Bytes, key: Bytes) returns (worlds: seq<World>, events: seq<Event>)
    ensures Run(worlds, events) && |events| == 6
    ensures forall i :: 0 <= i < 6 ==> AnsweredFromList(worlds[i], events[i])
    ensures WantsPod(worlds[3], 0) && InstanceName(crd, 0) !in worlds[5].pods
    ensures var w := Recreated(worlds[6], 0);
      && Enabled(w, SnapshotReconcile(key, GOOD))
      && exists q :: q in Next(w, SnapshotReconcile(key, GOOD)).requests && q.deleting && q.users != {}
  {
    events := seq(6, n requires 0 <= n < 6 => Happens(crd, key, n));
    worlds := seq(7, n requires 0 <= n < 7 => Stage(crd, key, n));
    StageBegins(crd, key);
    StageSearches(crd, key);
    StageConfirms(crd, key);
    StaleCreateRequests(crd, key);
    StageWants(crd, key);
    var n := Next(Recreated(worlds[6], 0), SnapshotReconcile(key, GOOD));
    assert n.requests[0] in n.requests;
  }
}
