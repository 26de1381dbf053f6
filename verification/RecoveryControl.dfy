/**
 * One reconcile of a StuckHeightRecovery: controllers/stuckheightrecovery_controller.go with `CheckStuckHeight`
 * (internal/stuckheight/height_monitor.go), the snapshot calls (internal/stuckheight/snapshot_creator.go) and the
 * recovery pod (internal/stuckheight/recovery_pod.go).
 *
 * What the API server answers and what the clock shows are inputs. A write that fails may have taken effect.
 * Status messages and the observed generation are not modelled.
 */
module RecoveryControl {
  import opened Common
  import opened RateLimiter

  /** `StuckHeightRecoveryPhase`; Created is the empty phase of a fresh object. */
  datatype Phase =
    | Created
    | Monitoring
    | HeightStuck
    | CreatingSnapshot
    | WaitingForSnapshot
    | RunningRecovery
    | WaitingForRecovery
    | RecoveryComplete
    | RecoveryFailed
    | RateLimited
    | Suspended

  /** A StuckDuration of None does not parse. */
  datatype Spec = Spec(suspend: bool, createSnapshot: bool, stuckDuration: Option<int>, limits: Limits)

  datatype Status = Status(phase: Phase, height: nat, heightTime: Option<int>, stuckPod: string, recoveryPod: string,
                           snapshot: string, window: Window)

  const New: Status := Status(Created, 0, None, "", "", "", Fresh)

  // ----- what the API server answers

  datatype Write = Acked | Unacked(applied: bool)

  datatype Completion = CheckFailed | StillRunning | Succeeded | Failed

  /**
   * `picked` is the entry of the fullnode's height map that the iteration happens to yield first, None if the map is
   * empty; `claim` the chain-home PVC of the stuck pod, None if the pod or its volume is not found; `write` and
   * `second` the answers to the first and second status write.
   */
  datatype Replies = Replies(fullNode: bool, picked: Option<(string, nat)>, claim: Option<string>, snapshot: Write,
                             snapshotName: string, ready: Option<bool>, pod: Write, completion: Completion,
                             write: Write, second: Write, check: int, now: int, later: int)

  predicate Took(w: Write) {
    w.Acked? || w.applied
  }

  // ----- the height monitor

  datatype Checked = CheckError | Checked(stuck: bool, pod: string, height: nat)

  /** `CheckStuckHeight`. */
  function CheckStuckHeight(spec: Spec, s: Status, picked: Option<(string, nat)>, now: int): (r: Checked)
    ensures r.Checked? ==> r.height > 0 && picked.Some? && r.height == picked.value.1
    ensures r.Checked? && r.stuck <==>
      && picked.Some? && picked.value.1 > 0 && spec.stuckDuration.Some? && s.height == picked.value.1
      && s.heightTime.Some? && s.heightTime.value <= now - spec.stuckDuration.value
  {
    if picked.None? then CheckError
    else
      var (pod, height) := picked.value;
      if height == 0 || spec.stuckDuration.None? then CheckError
      else if s.height != height || s.heightTime.None? then Checked(false, "", height)
      else if now - s.heightTime.value >= spec.stuckDuration.value then Checked(true, pod, height)
      else Checked(false, "", height)
  }

  // ----- what happened, for the record

  /**
   * An observed height is `kept` unless it differs from the stored one and the write that would store it is lost.
   * Disturbed is somebody else deleting the recovery pod of an attempt in flight.
   */
  datatype Entry =
    | Observed(time: int, height: nat, kept: bool)
    | Stuck(time: int, height: nat, duration: int)
    | Recorded(time: int, snapshotFirst: bool)
    | Taken(snapshot: string, pvc: string)
    | Ready(snapshot: string)
    | Launched(pod: string, pvc: string)
    | Disturbed(pod: string)

  datatype Outcome = Outcome(status: Status, pods: set<string>, entries: seq<Entry>)

  /** The name of the recovery pod: fixed by the stuck pod. */
  function RecoveryPodName(name: string, stuckPod: string): string {
    name + "-recovery-" + stuckPod
  }

  function Store(s: Status, grain: int): Status
    requires grain >= 1
  {
    s.(heightTime := FloorAll(s.heightTime, grain), window := Persist(s.window, grain))
  }

  function Saved(was: Status, s: Status, w: Write, grain: int): Status
    requires grain >= 1
  {
    if Took(w) then Store(s, grain) else was
  }

  // ----- the handlers as functions

  function OnMonitoring(spec: Spec, s: Status, r: Replies, grain: int): (Status, seq<Entry>)
    requires grain >= 1
  {
    var c := CheckStuckHeight(spec, s, r.picked, r.check);
    if c.CheckError? then (s, [])
    else if s.height != c.height then
      var seen := s.(height := c.height, heightTime := Some(r.now), window := Window(None, 0, s.window.last));
      var first := Saved(s, seen, r.write, grain);
      (if r.write.Acked? then Saved(first, seen.(phase := Monitoring), r.second, grain) else first,
       [Observed(r.now, c.height, Took(r.write))])
    else if c.stuck then
      (Saved(s, s.(phase := HeightStuck, stuckPod := c.pod), r.write, grain),
       [Observed(r.now, c.height, true)] +
       if Took(r.write) then [Stuck(r.check, c.height, spec.stuckDuration.value)] else [])
    else (Saved(s, s.(phase := Monitoring), r.write, grain), [Observed(r.now, c.height, true)])
  }

  function OnHeightStuck(spec: Spec, s: Status, r: Replies, grain: int): (Status, seq<Entry>)
    requires grain >= 1
  {
    var can := CanAttempt(spec.limits, s.window, r.check);
    if can.None? then (s, [])
    else if !can.value then (Saved(s, s.(phase := RateLimited), r.write, grain), [])
    else
      (Saved(s, s.(window := Record(spec.limits, s.window, r.now, r.later),
                   phase := if spec.createSnapshot then CreatingSnapshot else RunningRecovery), r.write, grain),
       if Took(r.write) then [Recorded(r.now, spec.createSnapshot)] else [])
  }

  function OnCreatingSnapshot(s: Status, r: Replies, grain: int): (Status, seq<Entry>)
    requires grain >= 1
  {
    if r.claim.None? then (Saved(s, s.(phase := RecoveryFailed), r.write, grain), [])
    else
      (Saved(s, if r.snapshot.Acked? then s.(snapshot := r.snapshotName, phase := WaitingForSnapshot)
                else s.(phase := RecoveryFailed), r.write, grain),
       if Took(r.snapshot) then [Taken(r.snapshotName, r.claim.value)] else [])
  }

  function OnWaitingForSnapshot(s: Status, r: Replies, grain: int): (Status, seq<Entry>)
    requires grain >= 1
  {
    if r.ready == Some(true) then (Saved(s, s.(phase := RunningRecovery), r.write, grain), [Ready(s.snapshot)])
    else (s, [])
  }

  /** Creating a pod whose name is taken fails. */
  function OnRunningRecovery(name: string, s: Status, pods: set<string>, r: Replies, grain: int): Outcome
    requires grain >= 1
  {
    var pod := RecoveryPodName(name, s.stuckPod);
    if r.claim.None? then Outcome(Saved(s, s.(phase := RecoveryFailed), r.write, grain), pods, [])
    else if pod in pods then Outcome(Saved(s, s.(phase := RecoveryFailed), r.write, grain), pods, [])
    else
      Outcome(Saved(s, if r.pod.Acked? then s.(recoveryPod := pod, phase := WaitingForRecovery)
                       else s.(phase := RecoveryFailed), r.write, grain),
              if Took(r.pod) then pods + {pod} else pods,
              if Took(r.pod) then [Launched(pod, r.claim.value)] else [])
  }

  function OnWaitingForRecovery(s: Status, r: Replies, grain: int): Status
    requires grain >= 1
  {
    match r.completion
    case CheckFailed => s
    case StillRunning => s
    case Succeeded => Saved(s, s.(phase := RecoveryComplete), r.write, grain)
    case Failed => Saved(s, s.(phase := RecoveryFailed), r.write, grain)
  }

  function OnRateLimited(spec: Spec, s: Status, r: Replies, grain: int): Status
    requires grain >= 1
  {
    if CanAttempt(spec.limits, s.window, r.check) == Some(true) then Saved(s, s.(phase := Monitoring), r.write, grain)
    else s
  }

  /** What one reconcile does. */
  function Step(name: string, spec: Spec, s: Status, pods: set<string>, r: Replies, grain: int): Outcome
    requires grain >= 1
  {
    if spec.suspend then
      Outcome(if s.phase != Suspended then Saved(s, s.(phase := Suspended), r.write, grain) else s, pods, [])
    else if !r.fullNode then Outcome(Saved(s, s.(phase := RecoveryFailed), r.write, grain), pods, [])
    else
      match s.phase
      case Created => var (t, e) := OnMonitoring(spec, s, r, grain); Outcome(t, pods, e)
      case Monitoring => var (t, e) := OnMonitoring(spec, s, r, grain); Outcome(t, pods, e)
      case HeightStuck => var (t, e) := OnHeightStuck(spec, s, r, grain); Outcome(t, pods, e)
      case CreatingSnapshot => var (t, e) := OnCreatingSnapshot(s, r, grain); Outcome(t, pods, e)
      case WaitingForSnapshot => var (t, e) := OnWaitingForSnapshot(s, r, grain); Outcome(t, pods, e)
      case RunningRecovery => OnRunningRecovery(name, s, pods, r, grain)
      case WaitingForRecovery => Outcome(OnWaitingForRecovery(s, r, grain), pods, [])
      case RecoveryComplete =>
        Outcome(Saved(s, s.(phase := Monitoring, stuckPod := "", recoveryPod := "", snapshot := ""), r.write, grain), pods, [])
      case RecoveryFailed =>
        Outcome(Saved(s, s.(phase := Monitoring, stuckPod := "", recoveryPod := ""), r.write, grain), pods, [])
      case RateLimited => Outcome(OnRateLimited(spec, s, r, grain), pods, [])
      case Suspended => Outcome(s, pods, [])
  }

  // ----- one step as the source writes it

  /** The API server's copy of the status, the recovery pods that exist, and the record of what happened. */
  class Server {
    const grain: int
    var status: Status
    var pods: set<string>
    ghost var log: seq<Entry>

    constructor (grain: int)
      ensures this.grain == grain && status == New && pods == {} && log == []
    {
      this.grain := grain;
      status, pods, log := New, {}, [];
    }

    method UpdateStatus(s: Status, w: Write) returns (err: bool)
      requires grain >= 1
      modifies this`status
      ensures status == Saved(old(status), s, w, grain) && err == w.Unacked?
    {
      if w.Acked? || w.applied {
        status := s.(heightTime := FloorAll(s.heightTime, grain), window := Persist(s.window, grain));
      }
      err := w.Unacked?;
    }

    method CreatePod(pod: string, ghost pvc: string, w: Write) returns (err: bool)
      modifies this`pods, this`log
      ensures err == (pod in old(pods) || w.Unacked?)
      ensures pods == if Took(w) then old(pods) + {pod} else old(pods)
      ensures log == if pod !in old(pods) && Took(w) then old(log) + [Launched(pod, pvc)] else old(log)
    {
      if pod in pods {
        return true;
      }
      if w.Acked? || w.applied {
        pods := pods + {pod};
        log := log + [Launched(pod, pvc)];
      }
      err := w.Unacked?;
    }
  }

  class StuckHeightRecovery {
    const name: string
    const server: Server
    const window: AttemptWindow
    var phase: Phase
    var height: nat
    var heightTime: Option<int>
    var stuckPod: string
    var recoveryPod: string
    var snapshot: string

    function State(): Status
      reads this, window
    {
      Status(phase, height, heightTime, stuckPod, recoveryPod, snapshot, window.State())
    }

    constructor (name: string, server: Server)
      ensures this.name == name && this.server == server && State() == server.status && fresh(window)
    {
      this.name, this.server := name, server;
      var s := server.status;
      window := new AttemptWindow(s.window);
      phase, height, heightTime, stuckPod, recoveryPod, snapshot :=
        s.phase, s.height, s.heightTime, s.stuckPod, s.recoveryPod, s.snapshot;
    }

    method HandleMonitoring(spec: Spec, r: Replies)
      requires server.grain >= 1 && State() == server.status
      modifies this, window, server`status, server`log
      ensures var (s, e) := OnMonitoring(spec, old(server.status), r, server.grain);
        server.status == s && server.log == old(server.log) + e
    {
      var c := CheckStuckHeight(spec, State(), r.picked, r.check);
      if c.CheckError? {
        return;
      }
      var reply := r.write;
      if height != c.height {
        height := c.height;
        heightTime := Some(r.now);
        window.ResetWindow();
        server.log := server.log + [Observed(r.now, c.height, Took(r.write))];
        var err := server.UpdateStatus(State(), reply);
        if err {
          return;
        }
        reply := r.second;
      } else {
        server.log := server.log + [Observed(r.now, c.height, true)];
      }
      if c.stuck {
        phase := HeightStuck;
        stuckPod := c.pod;
        var err := server.UpdateStatus(State(), reply);
        server.log := server.log + if Took(reply) then [Stuck(r.check, c.height, spec.stuckDuration.value)] else [];
        return;
      }
      phase := Monitoring;
      var err := server.UpdateStatus(State(), reply);
    }

    method HandleHeightStuck(spec: Spec, r: Replies)
      requires server.grain >= 1 && State() == server.status
      modifies this, window, server`status, server`log
      ensures var (s, e) := OnHeightStuck(spec, old(server.status), r, server.grain);
        server.status == s && server.log == old(server.log) + e
    {
      var can := window.CanAttemptRecovery(spec.limits, r.check);
      if can.None? {
        return;
      }
      if !can.value {
        phase := RateLimited;
        var err := server.UpdateStatus(State(), r.write);
        return;
      }
      window.RecordAttempt(spec.limits, r.now, r.later);
      if spec.createSnapshot {
        phase := CreatingSnapshot;
      } else {
        phase := RunningRecovery;
      }
      var err := server.UpdateStatus(State(), r.write);
      server.log := server.log + if Took(r.write) then [Recorded(r.now, spec.createSnapshot)] else [];
    }

    method HandleCreatingSnapshot(r: Replies)
      requires server.grain >= 1 && State() == server.status
      modifies this, server`status, server`log
      ensures var (s, e) := OnCreatingSnapshot(old(server.status), r, server.grain);
        server.status == s && server.log == old(server.log) + e
    {
      if r.claim.None? {
        phase := RecoveryFailed;
        var err := server.UpdateStatus(State(), r.write);
        return;
      }
      server.log := server.log + if Took(r.snapshot) then [Taken(r.snapshotName, r.claim.value)] else [];
      if r.snapshot.Unacked? {
        phase := RecoveryFailed;
        var err := server.UpdateStatus(State(), r.write);
        return;
      }
      snapshot := r.snapshotName;
      phase := WaitingForSnapshot;
      var err := server.UpdateStatus(State(), r.write);
    }

    method HandleWaitingForSnapshot(r: Replies)
      requires server.grain >= 1 && State() == server.status
      modifies this, server`status, server`log
      ensures var (s, e) := OnWaitingForSnapshot(old(server.status), r, server.grain);
        server.status == s && server.log == old(server.log) + e
    {
      if r.ready.None? || !r.ready.value {
        return;
      }
      server.log := server.log + [Ready(snapshot)];
      phase := RunningRecovery;
      var err := server.UpdateStatus(State(), r.write);
    }

    method HandleRunningRecovery(r: Replies)
      requires server.grain >= 1 && State() == server.status
      modifies this, server
      ensures var out := OnRunningRecovery(name, old(server.status), old(server.pods), r, server.grain);
        server.status == out.status && server.pods == out.pods && server.log == old(server.log) + out.entries
    {
      if r.claim.None? {
        phase := RecoveryFailed;
        var err := server.UpdateStatus(State(), r.write);
        return;
      }
      var pod := RecoveryPodName(name, stuckPod);
      var failed := server.CreatePod(pod, r.claim.value, r.pod);
      if failed {
        phase := RecoveryFailed;
        var err := server.UpdateStatus(State(), r.write);
        return;
      }
      recoveryPod := pod;
      phase := WaitingForRecovery;
      var err := server.UpdateStatus(State(), r.write);
    }

    method HandleWaitingForRecovery(r: Replies)
      requires server.grain >= 1 && State() == server.status
      modifies this, server`status
      ensures server.status == OnWaitingForRecovery(old(server.status), r, server.grain)
    {
      if r.completion.CheckFailed? || r.completion.StillRunning? {
        return;
      }
      if r.completion.Succeeded? {
        phase := RecoveryComplete;
      } else {
        phase := RecoveryFailed;
      }
      var err := server.UpdateStatus(State(), r.write);
    }

    method HandleRateLimited(spec: Spec, r: Replies)
      requires server.grain >= 1 && State() == server.status
      modifies this, server`status
      ensures server.status == OnRateLimited(spec, old(server.status), r, server.grain)
    {
      var can := window.CanAttemptRecovery(spec.limits, r.check);
      if can == Some(true) {
        phase := Monitoring;
        var err := server.UpdateStatus(State(), r.write);
      }
    }

    /** `Reconcile` computes exactly one `Step`. */
    method Reconcile(spec: Spec, r: Replies)
      requires server.grain >= 1 && State() == server.status
      modifies this, window, server
      ensures var out := Step(name, spec, old(server.status), old(server.pods), r, server.grain);
        server.status == out.status && server.pods == out.pods && server.log == old(server.log) + out.entries
    {
      if spec.suspend {
        if phase != Suspended {
          phase := Suspended;
          var err := server.UpdateStatus(State(), r.write);
        }
        return;
      }
      if !r.fullNode {
        phase := RecoveryFailed;
        var err := server.UpdateStatus(State(), r.write);
        return;
      }
      match phase {
        case Created => HandleMonitoring(spec, r);
        case Monitoring => HandleMonitoring(spec, r);
        case HeightStuck => HandleHeightStuck(spec, r);
        case CreatingSnapshot => HandleCreatingSnapshot(r);
        case WaitingForSnapshot => HandleWaitingForSnapshot(r);
        case RunningRecovery => HandleRunningRecovery(r);
        case WaitingForRecovery => HandleWaitingForRecovery(r);
        case RecoveryComplete =>
          phase, stuckPod, recoveryPod, snapshot := Monitoring, "", "", "";
          var err := server.UpdateStatus(State(), r.write);
        case RecoveryFailed =>
          phase, stuckPod, recoveryPod := Monitoring, "", "";
          var err := server.UpdateStatus(State(), r.write);
        case RateLimited => HandleRateLimited(spec, r);
        case Suspended =>
      }
    }
  }
}
