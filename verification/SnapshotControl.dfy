/**
 * One reconcile of a ScheduledVolumeSnapshot: controllers/scheduledvolumesnapshot_controller.go with
 * `ResetStatus` (internal/volsnapshot/status.go), `FullNodeControl` (internal/volsnapshot/fullnode_control.go) and
 * `FindCandidate`/`CreateSnapshot` (internal/volsnapshot/vol_snapshot_control.go).
 *
 * The status write that ends a reconcile is part of its step. What the API server answers during the step is an
 * input, and a failing write may have taken effect.
 */
module SnapshotControl {
  import opened Common
  import opened Names

  /** `SnapshotPhase`; Created is the empty phase of a fresh object. */
  datatype Phase =
    | Created
    | WaitingForNext
    | FindingCandidate
    | DeletingPod
    | WaitingForPodDeletion
    | Creating
    | WaitingForCreation
    | RestorePod
    | Suspended
    | MissingCRDs

  datatype Candidate = Candidate(pod: Bytes, pvc: Bytes)

  datatype SnapSpec = SnapSpec(suspend: bool, deletePod: bool, minAvailable: int, ordinal: Option<nat>)

  /**
   * A ScheduledVolumeSnapshot. The last two fields are history, not stored by the source: whether the current
   * cycle began with deletePod, and whether it has seen the candidate pod gone.
   */
  datatype Snap = Snap(spec: SnapSpec, phase: Phase, candidate: Option<Candidate>, lastSnapshot: Option<string>,
                       deleting: bool, confirmed: bool)

  // ----- what the API server answers

  datatype Write = Acked | Unacked(applied: bool)

  datatype Schedule = ScheduleError | NotDue | Due

  datatype Readiness = ReadyError | NotReady | ReadyOrGone

  datatype Replies = Replies(missingCRDs: bool, schedule: Schedule, synced: seq<nat>, signal: Write, listed: bool,
                             create: Write, snapshotName: string, ready: Readiness, got: bool, restore: Write)

  // ----- the pure decisions

  function ResetPhase(suspend: bool, phase: Phase): Phase {
    if suspend then RestorePod
    else if phase == Suspended || phase == Created then WaitingForNext
    else phase
  }

  function CandidateOf(crd: Bytes, ordinal: nat): Candidate {
    Candidate(InstanceName(crd, ordinal), PvcName(crd, ordinal))
  }

  function MinAvailable(spec: SnapSpec): int {
    if spec.minAvailable <= 0 then 2 else spec.minAvailable
  }

  /** `FindCandidate` over the ordinals of the in-sync, available pods. */
  function ChooseOrdinal(spec: SnapSpec, synced: seq<nat>): Option<nat> {
    if |synced| < MinAvailable(spec) then None
    else if spec.ordinal.None? then Some(synced[0])
    else if spec.ordinal.value in synced then spec.ordinal
    else None
  }

  function Found(crd: Bytes, spec: SnapSpec, synced: seq<nat>): Option<Candidate> {
    var i := ChooseOrdinal(spec, synced);
    if i.None? then None else Some(CandidateOf(crd, i.value))
  }

  /** `FindCandidate`: takes no pod down unless enough are in sync, and honours the requested ordinal. */
  method FindCandidate(crd: Bytes, spec: SnapSpec, synced: seq<nat>) returns (c: Option<Candidate>)
    ensures c == Found(crd, spec, synced)
    ensures var least := if spec.minAvailable > 0 then spec.minAvailable else 2;
      c.None? <==> |synced| < least || (spec.ordinal.Some? && spec.ordinal.value !in synced)
    ensures c.Some? ==> |synced| > 0 && c.value == CandidateOf(crd, if spec.ordinal.Some? then spec.ordinal.value else synced[0])
  {
    var minAvail := spec.minAvailable;
    if minAvail <= 0 {
      minAvail := 2;
    }
    if |synced| < minAvail {
      return None;
    }
    if spec.ordinal.None? {
      assert synced[0] in synced;
      return Some(CandidateOf(crd, synced[0]));
    }
    for k := 0 to |synced|
      invariant spec.ordinal.value !in synced[..k]
    {
      if synced[k] == spec.ordinal.value {
        return Some(CandidateOf(crd, synced[k]));
      }
    }
    assert synced[..|synced|] == synced;
    return None;
  }

  // ----- the key under which a snapshot holds a pod

  const SLASH: byte := 47
  /** ".v1alpha1.cosmos.bharvest.io" */
  const KEY_SUFFIX: Bytes := [46, 118, 49, 97, 108, 112, 104, 97, 49, 46, 99, 111, 115, 109, 111, 115,
                              46, 98, 104, 97, 114, 118, 101, 115, 116, 46, 105, 111]

  function WithoutSlashes(s: Bytes): Bytes {
    if s == [] then []
    else WithoutSlashes(s[..|s| - 1]) + if s[|s| - 1] == SLASH then [] else [s[|s| - 1]]
  }

  /** `sourceKey`. */
  function SourceKey(namespace: Bytes, name: Bytes): Bytes {
    WithoutSlashes(namespace + [DOT] + name + KEY_SUFFIX)
  }

  lemma {:induction false} WithoutSlashesConcat(a: Bytes, b: Bytes)
    ensures WithoutSlashes(a + b) == WithoutSlashes(a) + WithoutSlashes(b)
  {
    if b == [] {
      assert a + b == a;
    } else {
      WithoutSlashesConcat(a, b[..|b| - 1]);
      assert (a + b)[..|a + b| - 1] == a + b[..|b| - 1];
    }
  }

  lemma {:induction false} WithoutSlashesKeeps(s: Bytes)
    requires SLASH !in s
    ensures WithoutSlashes(s) == s
  {
    if s != [] {
      WithoutSlashesKeeps(s[..|s| - 1]);
      assert s == s[..|s| - 1] + [s[|s| - 1]];
    }
  }

  /** Snapshots of one namespace never share a key: object names contain no slash. */
  lemma SourceKeyInjective(namespace: Bytes, a: Bytes, b: Bytes)
    requires SLASH !in a && SLASH !in b
    ensures SourceKey(namespace, a) == SourceKey(namespace, b) <==> a == b
  {
    SourceKeyShape(namespace, a);
    SourceKeyShape(namespace, b);
    var pre, post := WithoutSlashes(namespace + [DOT]), WithoutSlashes(KEY_SUFFIX);
    if SourceKey(namespace, a) == SourceKey(namespace, b) {
      assert |a| == |b|;
      assert a == (pre + a + post)[|pre|..|pre| + |a|];
      assert b == (pre + b + post)[|pre|..|pre| + |b|];
    }
  }

  lemma SourceKeyShape(namespace: Bytes, a: Bytes)
    requires SLASH !in a
    ensures SourceKey(namespace, a) == WithoutSlashes(namespace + [DOT]) + a + WithoutSlashes(KEY_SUFFIX)
  {
    WithoutSlashesConcat(namespace + [DOT] + a, KEY_SUFFIX);
    WithoutSlashesConcat(namespace + [DOT], a);
    WithoutSlashesKeeps(a);
  }

  // ----- one step as a function

  datatype Outcome = Outcome(snap: Snap, holds: map<Bytes, Bytes>, requested: bool)

  /** The status fields a step reads without checking them for nil. */
  predicate NoNilDereference(key: Bytes, s: Snap, holds: map<Bytes, Bytes>) {
    var phase := ResetPhase(s.spec.suspend, s.phase);
    && (phase.DeletingPod? || phase.WaitingForPodDeletion? || phase.Creating? ==> s.candidate.Some?)
    && (phase.WaitingForCreation? ==> s.lastSnapshot.Some?)
    && (phase.RestorePod? && key in holds ==> s.candidate.Some?)
  }

  function Took(w: Write): bool {
    w.Acked? || w.applied
  }

  /**
   * What one reconcile does, given the candidate a search would find and the pods that exist when it runs;
   * `requested` is a VolumeSnapshot creation.
   */
  function Step(key: Bytes, s: Snap, found: Option<Candidate>, holds: map<Bytes, Bytes>, pods: set<Bytes>, r: Replies): Outcome
    requires NoNilDereference(key, s, holds)
  {
    var phase := ResetPhase(s.spec.suspend, s.phase);
    var reset := s.(phase := phase);
    if r.missingCRDs then Outcome(s.(phase := MissingCRDs), holds, false)
    else
      match phase
      case WaitingForNext =>
        Outcome(if r.schedule == Due then reset.(phase := FindingCandidate) else reset, holds, false)
      case FindingCandidate =>
        if found.None? then Outcome(reset, holds, false)
        else
          Outcome(reset.(candidate := found, deleting := s.spec.deletePod, confirmed := false,
                         phase := if s.spec.deletePod then DeletingPod else Creating), holds, false)
      case DeletingPod =>
        Outcome(if r.signal.Acked? then reset.(phase := WaitingForPodDeletion) else reset,
                if Took(r.signal) then holds[key := s.candidate.value.pod] else holds, false)
      case WaitingForPodDeletion =>
        Outcome(if r.listed && s.candidate.value.pod !in pods then reset.(phase := Creating, confirmed := true) else reset,
                holds, false)
      case Creating =>
        Outcome(if r.create.Acked? then reset.(phase := WaitingForCreation, lastSnapshot := Some(r.snapshotName)) else reset,
                holds, Took(r.create))
      case WaitingForCreation =>
        Outcome(if r.ready == ReadyOrGone then reset.(phase := RestorePod) else reset, holds, false)
      case RestorePod =>
        var done := reset.(phase := if s.spec.suspend then Suspended else WaitingForNext);
        if r.got && key !in holds then Outcome(done, holds, false)
        else Outcome(if r.restore.Acked? then done else reset, if Took(r.restore) then holds - {key} else holds, false)
      case Created => Outcome(reset, holds, false)
      case Suspended => Outcome(reset, holds, false)
      case MissingCRDs => Outcome(reset, holds, false)
  }

  // ----- one step as the source writes it

  /** The part of a CosmosFullNode's status that snapshots share. */
  class FullNodeStatus {
    var holds: map<Bytes, Bytes>

    constructor ()
      ensures holds == map[]
    {
      holds := map[];
    }

    /** `SignalPodDeletion`. */
    method SignalPodDeletion(key: Bytes, pod: Bytes, reply: Write) returns (err: bool)
      modifies this
      ensures holds == if Took(reply) then old(holds)[key := pod] else old(holds)
      ensures err == reply.Unacked?
    {
      if reply.Acked? || reply.applied {
        holds := holds[key := pod];
      }
      err := reply.Unacked?;
    }

    /** `SignalPodRestoration`. */
    method SignalPodRestoration(key: Bytes, reply: Write) returns (err: bool)
      modifies this
      ensures holds == if Took(reply) then old(holds) - {key} else old(holds)
      ensures err == reply.Unacked?
    {
      if reply.Acked? || reply.applied {
        holds := holds - {key};
      }
      err := reply.Unacked?;
    }
  }

  class ScheduledSnapshot {
    var spec: SnapSpec
    var phase: Phase
    var candidate: Option<Candidate>
    var lastSnapshot: Option<string>
    ghost var deleting: bool
    ghost var confirmed: bool

    ghost function State(): Snap
      reads this
    {
      Snap(spec, phase, candidate, lastSnapshot, deleting, confirmed)
    }

    constructor (spec: SnapSpec)
      ensures State() == Snap(spec, Created, None, None, false, false)
    {
      this.spec := spec;
      phase := Created;
      candidate := None;
      lastSnapshot := None;
      deleting := false;
      confirmed := false;
    }

    /** `ResetStatus`. */
    method ResetStatus()
      modifies this`phase
      ensures phase == ResetPhase(spec.suspend, old(phase))
    {
      if spec.suspend {
        phase := RestorePod;
      } else if phase == Suspended {
        phase := WaitingForNext;
      } else if phase == Created {
        phase := WaitingForNext;
      }
    }

    /** `Reconcile` computes exactly one `Step`. */
    method Reconcile(crd: Bytes, key: Bytes, fullnode: FullNodeStatus, pods: set<Bytes>, r: Replies) returns (requested: bool)
      requires NoNilDereference(key, State(), fullnode.holds)
      modifies this, fullnode
      ensures Outcome(State(), fullnode.holds, requested) ==
        Step(key, old(State()), Found(crd, spec, r.synced), old(fullnode.holds), pods, r)
    {
      requested := false;
      ResetStatus();
      if r.missingCRDs {
        phase := MissingCRDs;
        return;
      }
      match phase {
        case WaitingForNext =>
          if r.schedule == Due {
            phase := FindingCandidate;
          }
        case FindingCandidate =>
          var found := FindCandidate(crd, spec, r.synced);
          if found.Some? {
            candidate := found;
            phase := Creating;
            if spec.deletePod {
              phase := DeletingPod;
            }
            deleting, confirmed := spec.deletePod, false;
          }
        case DeletingPod =>
          var err := fullnode.SignalPodDeletion(key, candidate.value.pod, r.signal);
          if !err {
            phase := WaitingForPodDeletion;
          }
        case WaitingForPodDeletion =>
          if r.listed && candidate.value.pod !in pods {
            phase := Creating;
            confirmed := true;
          }
        case Creating =>
          requested := r.create.Acked? || r.create.applied;
          if r.create.Acked? {
            lastSnapshot := Some(r.snapshotName);
            phase := WaitingForCreation;
          }
        case WaitingForCreation =>
          if r.ready == ReadyOrGone {
            phase := RestorePod;
          }
        case RestorePod =>
          var err := false;
          if !r.got || key in fullnode.holds {
            err := fullnode.SignalPodRestoration(key, r.restore);
          }
          if !err {
            phase := if spec.suspend then Suspended else WaitingForNext;
          }
        case Created =>
        case Suspended =>
        case MissingCRDs =>
      }
    }
  }
}
