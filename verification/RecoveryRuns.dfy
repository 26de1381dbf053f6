/**
 * Whole runs of a StuckHeightRecovery: reconciles under an advancing clock, with the spec edited at will, lost
 * status writes, and recovery pods deleted by others.
 */
module RecoveryRuns {
  import opened Common
  import opened RateLimiter
  import opened RecoveryControl

  /**
   * `claims` is the chain-home PVC of each pod, which its name fixes. `times` and `starts` are the attempts recorded
   * since the stored height last changed, and those of them that began a rate-limit window.
   */
  datatype World = World(name: string, grain: int, skew: int, claims: map<string, string>,
                         status: Status, pods: set<string>, clock: int, log: seq<Entry>,
                         times: seq<int>, starts: seq<nat>)

  datatype Event =
    | Reconcile(spec: Spec, replies: Replies)
    | PodVanishes(pod: string)

  predicate Enabled(w: World, e: Event) {
    match e
    case Reconcile(spec, r) =>
      && w.clock <= r.check <= r.now <= r.later <= r.now + w.skew
      && (r.claim.Some? ==> w.status.stuckPod in w.claims && r.claim.value == w.claims[w.status.stuckPod])
    case PodVanishes(pod) => pod in w.pods
  }

  predicate InFlight(p: Phase) {
    p.CreatingSnapshot? || p.WaitingForSnapshot? || p.RunningRecovery?
  }

  function OwnPod(w: World): string {
    RecoveryPodName(w.name, w.status.stuckPod)
  }

  function HistoryOf(w: World): History {
    History(w.status.window, w.times, w.starts)
  }

  /** What a reconcile does to the list of attempts. */
  function Track(w: World, spec: Spec, out: Outcome, r: Replies): History
    requires w.grain >= 1
  {
    if out.entries != [] && out.entries[0].Recorded? then Attempted(spec.limits, w.grain, HistoryOf(w), r.now, r.later)
    else if out.status.height != w.status.height then Empty(out.status.window.last)
    else HistoryOf(w)
  }

  function Next(w: World, e: Event): World
    requires Enabled(w, e) && w.grain >= 1
  {
    match e
    case Reconcile(spec, r) =>
      var out := Step(w.name, spec, w.status, w.pods, r, w.grain);
      var h := Track(w, spec, out, r);
      w.(status := out.status, pods := out.pods, clock := r.later, log := w.log + out.entries,
         times := h.times, starts := h.starts)
    case PodVanishes(pod) =>
      w.(pods := w.pods - {pod},
         log := if InFlight(w.status.phase) && pod == OwnPod(w) then w.log + [Disturbed(pod)] else w.log)
  }

  predicate Initial(w: World) {
    w.grain >= 1 && w.skew >= 0 && w.status == New && w.log == [] && w.times == [] && w.starts == []
  }

  ghost predicate Run(worlds: seq<World>, events: seq<Event>) {
    && |worlds| == |events| + 1 && Initial(worlds[0])
    && forall i :: 0 <= i < |events| ==>
         worlds[i].grain >= 1 && Enabled(worlds[i], events[i]) && worlds[i + 1] == Next(worlds[i], events[i])
  }

  // ----- persisted times are already cut down

  predicate Floored(s: Status, grain: int)
    requires grain >= 1
  {
    Store(s, grain) == s
  }

  lemma StoreTwice(s: Status, grain: int)
    requires grain >= 1
    ensures Floored(Store(s, grain), grain)
  {
    if s.heightTime.Some? {
      FloorTwice(s.heightTime.value, grain);
    }
    if s.window.start.Some? {
      FloorTwice(s.window.start.value, grain);
    }
    if s.window.last.Some? {
      FloorTwice(s.window.last.value, grain);
    }
  }

  lemma StepStaysFloored(w: World, e: Event)
    requires w.grain >= 1 && Enabled(w, e) && Floored(w.status, w.grain)
    ensures Floored(Next(w, e).status, w.grain)
  {
    if e.Reconcile? {
      var n := Next(w, e).status;
      forall s: Status ensures Floored(Store(s, w.grain), w.grain) {
        StoreTwice(s, w.grain);
      }
    }
  }

  // ----- stuck only when stuck

  /** The kept observation since which every kept observation shows the same height. */
  function Steady(log: seq<Entry>): Option<(int, nat)> {
    if log == [] then None
    else
      var before := Steady(log[..|log| - 1]);
      var e := log[|log| - 1];
      if e.Observed? && e.kept && !(before.Some? && before.value.1 == e.height) then Some((e.time, e.height)) else before
  }

  /** From `i` on, every kept observation before `n` shows the height of `log[i]`. */
  predicate Unchanged(log: seq<Entry>, i: nat, n: nat)
    requires i < n <= |log| && log[i].Observed?
  {
    forall j :: i <= j < n && log[j].Observed? && log[j].kept ==> log[j].height == log[i].height
  }

  lemma {:induction false} SteadyMeans(log: seq<Entry>) returns (i: nat)
    requires Steady(log).Some?
    ensures i < |log| && log[i] == Observed(Steady(log).value.0, Steady(log).value.1, true) && Unchanged(log, i, |log|)
  {
    var pre := log[..|log| - 1];
    var e := log[|log| - 1];
    if Steady(pre).Some? && Steady(pre) == Steady(log) {
      i := SteadyMeans(pre);
      assert forall j :: i <= j < |pre| ==> log[j] == pre[j];
    } else {
      i := |log| - 1;
    }
  }

  /** The stored height and time are those of the steady observation. */
  predicate Faithful(s: Status, log: seq<Entry>, grain: int)
    requires grain >= 1
  {
    match Steady(log)
    case None => s.height == 0 && s.heightTime.None?
    case Some((t, h)) => h > 0 && s.height == h && s.heightTime == Some(Floor(t, grain))
  }

  /** A declaration of a stuck height at `j` is justified by some earlier observation. */
  predicate Justified(log: seq<Entry>, j: nat, i: nat, grain: int)
    requires i < j < |log| && log[j].Stuck? && log[i].Observed? && grain >= 1
  {
    && log[i].kept && log[i].height == log[j].height && Unchanged(log, i, j)
    && Floor(log[i].time, grain) <= log[j].time - log[j].duration
  }

  /** At most one height is observed, first; a new one that is kept is stored with its time; Stuck comes second. */
  predicate Observes(s: Status, t: Status, es: seq<Entry>, grain: int)
    requires grain >= 1
  {
    && (forall i :: 0 <= i < |es| && es[i].Observed? ==> i == 0 && es[i].height > 0 && (!es[i].kept ==> es[i].height != s.height))
    && (forall i :: 0 <= i < |es| && es[i].Stuck? ==> i == 1)
    && (|es| >= 2 ==> Declares(s, es))
    && if es != [] && es[0].Observed? && es[0].kept && es[0].height != s.height then
         t.height == es[0].height > 0 && t.heightTime == Some(Floor(es[0].time, grain))
       else t.height == s.height && t.heightTime == s.heightTime
  }

  /** What a step observes and what it then stores. */
  lemma StepObserves(name: string, spec: Spec, s: Status, pods: set<string>, r: Replies, grain: int)
    requires grain >= 1 && Floored(s, grain)
    ensures var out := Step(name, spec, s, pods, r, grain);
      Observes(s, out.status, out.entries, grain)
  {
  }

  /** A stuck height is declared on seeing the stored height again, long enough after the stored time. */
  predicate Declares(s: Status, es: seq<Entry>) {
    && |es| == 2 && es[0].Observed? && es[1].Stuck? && es[0].kept && es[0].height == s.height == es[1].height
    && s.heightTime.Some? && s.heightTime.value <= es[1].time - es[1].duration
  }

  lemma {:induction false} SteadyAfter(log: seq<Entry>, es: seq<Entry>)
    requires forall i :: 0 <= i < |es| && es[i].Observed? ==> i == 0
    ensures Steady(log + es) == if es != [] && es[0].Observed? then Steady(log + [es[0]]) else Steady(log)
  {
    if es == [] {
      assert log + es == log;
    } else if |es| == 1 {
      assert log + es == log + [es[0]];
      assert (log + es)[..|log + es| - 1] == log;
    } else {
      SteadyAfter(log, es[..|es| - 1]);
      assert (log + es)[..|log + es| - 1] == log + es[..|es| - 1];
    }
  }

  lemma ObservingStaysFaithful(s: Status, t: Status, log: seq<Entry>, es: seq<Entry>, grain: int)
    requires grain >= 1 && Faithful(s, log, grain) && Observes(s, t, es, grain)
    ensures Faithful(t, log + es, grain)
  {
    SteadyAfter(log, es);
    if es != [] {
      assert (log + [es[0]])[..|log|] == log;
    }
  }

  lemma StepStaysFaithful(w: World, e: Event)
    requires w.grain >= 1 && Enabled(w, e) && Floored(w.status, w.grain) && Faithful(w.status, w.log, w.grain)
    ensures Faithful(Next(w, e).status, Next(w, e).log, w.grain)
  {
    match e
    case PodVanishes(pod) =>
      SteadyAfter(w.log, [Disturbed(pod)]);
    case Reconcile(spec, r) =>
      var out := Step(w.name, spec, w.status, w.pods, r, w.grain);
      StepObserves(w.name, spec, w.status, w.pods, r, w.grain);
      ObservingStaysFaithful(w.status, out.status, w.log, out.entries, w.grain);
  }

  /** An observation that was not kept differs from the height stored when it was made. */
  ghost predicate LostDiffers(log: seq<Entry>) {
    forall k :: 0 <= k < |log| && log[k].Observed? && !log[k].kept && Steady(log[..k]).Some? ==>
      log[k].height != Steady(log[..k]).value.1
  }

  lemma ObservingStaysDifferent(s: Status, t: Status, log: seq<Entry>, es: seq<Entry>, grain: int)
    requires grain >= 1 && Faithful(s, log, grain) && Observes(s, t, es, grain) && LostDiffers(log)
    ensures LostDiffers(log + es)
  {
    var n := log + es;
    forall k | 0 <= k < |n| && n[k].Observed? && !n[k].kept && Steady(n[..k]).Some?
      ensures n[k].height != Steady(n[..k]).value.1
    {
      if k < |log| {
        assert n[..k] == log[..k];
      } else {
        assert n[k] == es[k - |log|] && n[..|log|] == log;
      }
    }
  }

  lemma StepStaysDifferent(w: World, e: Event)
    requires w.grain >= 1 && Enabled(w, e) && Floored(w.status, w.grain) && Faithful(w.status, w.log, w.grain)
    requires LostDiffers(w.log)
    ensures LostDiffers(Next(w, e).log)
  {
    match e
    case PodVanishes(pod) =>
      assert Observes(w.status, w.status, [Disturbed(pod)], w.grain);
      ObservingStaysDifferent(w.status, w.status, w.log, [Disturbed(pod)], w.grain);
    case Reconcile(spec, r) =>
      var out := Step(w.name, spec, w.status, w.pods, r, w.grain);
      StepObserves(w.name, spec, w.status, w.pods, r, w.grain);
      ObservingStaysDifferent(w.status, out.status, w.log, out.entries, w.grain);
  }

  /** From a kept observation on, as long as kept ones agree with it, its height is the stored one. */
  lemma {:induction false} SteadyHeld(log: seq<Entry>, i: nat, k: nat)
    requires i < k <= |log| && log[i].Observed? && log[i].kept && Unchanged(log, i, k)
    ensures Steady(log[..k]).Some? && Steady(log[..k]).value.1 == log[i].height
  {
    assert log[..k][..k - 1] == log[..k - 1];
    if i < k - 1 {
      SteadyHeld(log, i, k - 1);
    }
  }

  ghost predicate AllJustified(log: seq<Entry>, grain: int)
    requires grain >= 1
  {
    forall j :: 0 <= j < |log| && log[j].Stuck? ==> exists i :: 0 <= i < j && log[i].Observed? && Justified(log, j, i, grain)
  }

  lemma AppendStaysJustified(log: seq<Entry>, es: seq<Entry>, grain: int)
    requires grain >= 1 && AllJustified(log, grain) && forall i :: 0 <= i < |es| ==> !es[i].Stuck?
    ensures AllJustified(log + es, grain)
  {
    var n := log + es;
    forall j | 0 <= j < |n| && n[j].Stuck?
      ensures exists i :: 0 <= i < j && n[i].Observed? && Justified(n, j, i, grain)
    {
      assert log[j].Stuck?;
      var i :| 0 <= i < j && log[i].Observed? && Justified(log, j, i, grain);
      assert Justified(n, j, i, grain);
    }
  }

  /** Declaring a stuck height right after an observation, justified by entry `i`. */
  lemma OneMoreJustified(log: seq<Entry>, e: Entry, i: nat, grain: int)
    requires grain >= 1 && AllJustified(log, grain) && e.Stuck?
    requires i < |log| && log[i].Observed? && Justified(log + [e], |log|, i, grain)
    ensures AllJustified(log + [e], grain)
  {
    var n := log + [e];
    forall j | 0 <= j < |n| && n[j].Stuck?
      ensures exists i :: 0 <= i < j && n[i].Observed? && Justified(n, j, i, grain)
    {
      if j < |log| {
        assert log[j].Stuck?;
        var k :| 0 <= k < j && log[k].Observed? && Justified(log, j, k, grain);
        assert Justified(n, j, k, grain);
      } else {
        assert n[i].Observed? && Justified(n, j, i, grain);
      }
    }
  }

  lemma DeclaringStaysJustified(s: Status, log: seq<Entry>, es: seq<Entry>, grain: int)
    requires grain >= 1 && AllJustified(log, grain) && Faithful(s, log, grain) && Declares(s, es)
    ensures AllJustified(log + es, grain)
  {
    AppendStaysJustified(log, [es[0]], grain);
    var mid := log + [es[0]];
    assert mid[..|log|] == log;
    var i := SteadyMeans(mid);
    assert forall j :: 0 <= j < |mid| ==> (mid + [es[1]])[j] == mid[j];
    OneMoreJustified(mid, es[1], i, grain);
    assert mid + [es[1]] == log + es;
  }

  lemma StepStaysJustified(w: World, e: Event)
    requires w.grain >= 1 && Enabled(w, e) && Floored(w.status, w.grain) && Faithful(w.status, w.log, w.grain)
    requires AllJustified(w.log, w.grain)
    ensures AllJustified(Next(w, e).log, w.grain)
  {
    match e
    case PodVanishes(pod) =>
      AppendStaysJustified(w.log, [Disturbed(pod)], w.grain);
    case Reconcile(spec, r) =>
      var es := Step(w.name, spec, w.status, w.pods, r, w.grain).entries;
      StepObserves(w.name, spec, w.status, w.pods, r, w.grain);
      if |es| == 2 {
        DeclaringStaysJustified(w.status, w.log, es, w.grain);
      } else {
        AppendStaysJustified(w.log, es, w.grain);
      }
  }

  // ----- an attempt pays for a launch

  function Recordings(log: seq<Entry>): nat {
    if log == [] then 0 else Recordings(log[..|log| - 1]) + if log[|log| - 1].Recorded? then 1 else 0
  }

  function Launches(log: seq<Entry>): nat {
    if log == [] then 0 else Launches(log[..|log| - 1]) + if log[|log| - 1].Launched? then 1 else 0
  }

  function Disturbances(log: seq<Entry>): nat {
    if log == [] then 0 else Disturbances(log[..|log| - 1]) + if log[|log| - 1].Disturbed? then 1 else 0
  }

  /** An attempt in flight whose pod does not exist may still launch it. */
  function Credit(name: string, s: Status, pods: set<string>): nat {
    if InFlight(s.phase) && RecoveryPodName(name, s.stuckPod) !in pods then 1 else 0
  }

  predicate Paid(name: string, s: Status, pods: set<string>, log: seq<Entry>) {
    Launches(log) + Credit(name, s, pods) <= Recordings(log) + Disturbances(log)
  }

  /** Entries that neither record nor launch. */
  predicate Neutral(es: seq<Entry>) {
    forall i :: 0 <= i < |es| ==> es[i].Observed? || es[i].Stuck? || es[i].Taken? || es[i].Ready?
  }

  lemma {:induction false} NeutralCounts(log: seq<Entry>, es: seq<Entry>)
    requires Neutral(es)
    ensures Recordings(log + es) == Recordings(log) && Launches(log + es) == Launches(log)
    ensures Disturbances(log + es) == Disturbances(log)
  {
    if es == [] {
      assert log + es == log;
    } else {
      NeutralCounts(log, es[..|es| - 1]);
      assert (log + es)[..|log + es| - 1] == log + es[..|es| - 1];
    }
  }

  /** A step records only from HeightStuck, launches only its own pod from RunningRecovery, and otherwise does neither. */
  predicate Booked(name: string, s: Status, pods: set<string>, out: Outcome) {
    var own := RecoveryPodName(name, s.stuckPod);
    if s.phase.HeightStuck? && out.entries != [] then
      out.pods == pods && |out.entries| == 1 && out.entries[0].Recorded?
    else if s.phase.RunningRecovery? && out.entries != [] then
      && |out.entries| == 1 && out.entries[0].Launched? && out.entries[0].pod == own
      && own !in pods && out.pods == pods + {own} && (InFlight(out.status.phase) ==> out.status.stuckPod == s.stuckPod)
    else
      && out.pods == pods && Neutral(out.entries)
      && (InFlight(out.status.phase) ==> InFlight(s.phase) && out.status.stuckPod == s.stuckPod)
  }

  lemma StepIsBooked(name: string, spec: Spec, s: Status, pods: set<string>, r: Replies, grain: int)
    requires grain >= 1
    ensures var out := Step(name, spec, s, pods, r, grain);
      && Booked(name, s, pods, out)
      && (forall i :: 0 <= i < |out.entries| && out.entries[i].Launched? ==>
            i == 0 && s.phase.RunningRecovery? && r.claim.Some? && out.entries[0].pvc == r.claim.value)
  {
  }

  lemma BookedStaysPaid(name: string, s: Status, pods: set<string>, log: seq<Entry>, out: Outcome)
    requires Paid(name, s, pods, log) && Booked(name, s, pods, out)
    ensures Paid(name, out.status, out.pods, log + out.entries)
  {
    if Neutral(out.entries) {
      NeutralCounts(log, out.entries);
    } else {
      assert (log + out.entries)[..|log|] == log;
    }
  }

  lemma StepStaysPaid(w: World, e: Event)
    requires w.grain >= 1 && Enabled(w, e) && Paid(w.name, w.status, w.pods, w.log)
    ensures var n := Next(w, e); Paid(n.name, n.status, n.pods, n.log)
  {
    match e
    case PodVanishes(pod) =>
      assert (w.log + [Disturbed(pod)])[..|w.log|] == w.log;
    case Reconcile(spec, r) =>
      StepIsBooked(w.name, spec, w.status, w.pods, r, w.grain);
      BookedStaysPaid(w.name, w.status, w.pods, w.log, Step(w.name, spec, w.status, w.pods, r, w.grain));
  }

  // ----- a snapshot first

  /** What was logged since the last recorded attempt, which it begins with. */
  function Cycle(log: seq<Entry>): seq<Entry> {
    if log == [] then []
    else if log[|log| - 1].Recorded? then [log[|log| - 1]]
    else Cycle(log[..|log| - 1]) + [log[|log| - 1]]
  }

  /** A snapshot of the PVC was taken and afterwards reported ready. */
  ghost predicate Secured(c: seq<Entry>, pvc: string) {
    exists i, j :: 0 <= i < j < |c| && c[i].Taken? && c[i].pvc == pvc && c[j] == Ready(c[i].snapshot)
  }

  predicate Begun(c: seq<Entry>) {
    c != [] && c[0].Recorded?
  }

  /** Every launch belongs to a recorded attempt, and one that asked for a snapshot has it. */
  ghost predicate LaunchSecured(log: seq<Entry>, j: nat)
    requires j < |log| && log[j].Launched?
  {
    var c := Cycle(log[..j]);
    Begun(c) && (c[0].snapshotFirst ==> Secured(c, log[j].pvc))
  }

  ghost predicate AllSecured(log: seq<Entry>) {
    forall j :: 0 <= j < |log| && log[j].Launched? ==> LaunchSecured(log, j)
  }

  ghost predicate CycleKept(w: World) {
    var c, s := Cycle(w.log), w.status;
    && (InFlight(s.phase) ==> Begun(c))
    && (s.phase.WaitingForSnapshot? ==> s.stuckPod in w.claims && Taken(s.snapshot, w.claims[s.stuckPod]) in c)
    && (s.phase.RunningRecovery? && c[0].snapshotFirst ==> s.stuckPod in w.claims && Secured(c, w.claims[s.stuckPod]))
  }

  /** How a step moves through the phases of one attempt. */
  lemma StepInCycle(name: string, spec: Spec, s: Status, pods: set<string>, r: Replies, grain: int)
    requires grain >= 1
    ensures var out := Step(name, spec, s, pods, r, grain);
      && (InFlight(out.status.phase) && !s.phase.HeightStuck? ==> InFlight(s.phase) && out.status.stuckPod == s.stuckPod)
      && (out.status.phase.WaitingForSnapshot? ==>
            (s.phase.WaitingForSnapshot? && out.status.snapshot == s.snapshot)
            || (r.claim.Some? && out.entries == [Taken(out.status.snapshot, r.claim.value)]))
      && (out.status.phase.RunningRecovery? ==>
            s.phase.RunningRecovery? || (s.phase.WaitingForSnapshot? && out.entries == [Ready(s.snapshot)])
            || (s.phase.HeightStuck? && out.entries == [Recorded(r.now, false)]))
      && (s.phase.HeightStuck? && InFlight(out.status.phase) ==> out.entries == [Recorded(r.now, spec.createSnapshot)])
      && (forall i :: 0 <= i < |out.entries| && out.entries[i].Recorded? ==> s.phase.HeightStuck? && |out.entries| == 1)
  {
    match s.phase
    case Created =>
    case Monitoring =>
    case HeightStuck =>
    case CreatingSnapshot =>
    case WaitingForSnapshot =>
    case RunningRecovery =>
    case WaitingForRecovery =>
    case RecoveryComplete =>
    case RecoveryFailed =>
    case RateLimited =>
    case Suspended =>
  }

  lemma {:induction false} CycleAfter(log: seq<Entry>, es: seq<Entry>)
    requires forall i :: 0 <= i < |es| ==> !es[i].Recorded?
    ensures Cycle(log + es) == Cycle(log) + es
  {
    if es == [] {
      assert log + es == log;
    } else {
      CycleAfter(log, es[..|es| - 1]);
      assert (log + es)[..|log + es| - 1] == log + es[..|es| - 1];
    }
  }

  lemma CycleBegins(log: seq<Entry>, e: Entry)
    requires e.Recorded?
    ensures Cycle(log + [e]) == [e]
  {
  }

  lemma SecuredGrows(c: seq<Entry>, es: seq<Entry>, pvc: string)
    requires Secured(c, pvc)
    ensures Secured(c + es, pvc)
  {
    var i, j :| 0 <= i < j < |c| && c[i].Taken? && c[i].pvc == pvc && c[j] == Ready(c[i].snapshot);
    assert (c + es)[i] == c[i] && (c + es)[j] == c[j];
  }

  lemma ReadySecures(c: seq<Entry>, snapshot: string, pvc: string)
    requires Taken(snapshot, pvc) in c
    ensures Secured(c + [Ready(snapshot)], pvc)
  {
    var i :| 0 <= i < |c| && c[i] == Taken(snapshot, pvc);
    var n := c + [Ready(snapshot)];
    assert n[i] == c[i] && n[|c|] == Ready(snapshot);
  }

  lemma StepKeepsCycle(w: World, e: Event)
    requires w.grain >= 1 && Enabled(w, e) && CycleKept(w)
    ensures CycleKept(Next(w, e))
  {
    var c, s := Cycle(w.log), w.status;
    match e
    case PodVanishes(pod) =>
      CycleAfter(w.log, [Disturbed(pod)]);
      if s.phase.RunningRecovery? && c[0].snapshotFirst {
        SecuredGrows(c, [Disturbed(pod)], w.claims[s.stuckPod]);
      }
    case Reconcile(spec, r) =>
      var out := Step(w.name, spec, s, w.pods, r, w.grain);
      StepInCycle(w.name, spec, s, w.pods, r, w.grain);
      if s.phase.HeightStuck? && InFlight(out.status.phase) {
        CycleBegins(w.log, out.entries[0]);
      } else if InFlight(out.status.phase) {
        CycleAfter(w.log, out.entries);
        if s.phase.WaitingForSnapshot? && out.status.phase.RunningRecovery? {
          ReadySecures(c, s.snapshot, w.claims[s.stuckPod]);
        } else if s.phase.RunningRecovery? && c[0].snapshotFirst {
          SecuredGrows(c, out.entries, w.claims[s.stuckPod]);
        }
      }
  }

  lemma StepStaysSecured(w: World, e: Event)
    requires w.grain >= 1 && Enabled(w, e) && CycleKept(w) && AllSecured(w.log)
    ensures AllSecured(Next(w, e).log)
  {
    var n := Next(w, e).log;
    if e.Reconcile? {
      StepIsBooked(w.name, e.spec, w.status, w.pods, e.replies, w.grain);
    }
    forall j | 0 <= j < |n| && n[j].Launched? ensures LaunchSecured(n, j) {
      if j < |w.log| {
        assert LaunchSecured(w.log, j);
        assert n[..j] == w.log[..j];
      } else {
        assert n[..j] == w.log;
      }
    }
  }

  // ----- the rate limit

  /** The limits under which the fixed-spec theorems are stated. */
  predicate Fixed(e: Event, s: Setting) {
    e.Reconcile? ==> Governed(e.spec.limits, s)
  }

  predicate Matches(w: World, s: Setting) {
    Proper(s) && s.grain == w.grain && s.skew == w.skew
  }

  ghost predicate RateKept(w: World, s: Setting)
    requires Proper(s)
  {
    Kept(s, HistoryOf(w)) && (w.times != [] ==> w.times[|w.times| - 1] <= w.clock)
  }

  /** A step leaves the stored window alone, resets it because the height changed, or records a permitted attempt. */
  lemma StepTouchesWindow(name: string, spec: Spec, s: Status, pods: set<string>, r: Replies, grain: int)
    requires grain >= 1 && Floored(s, grain)
    ensures var out := Step(name, spec, s, pods, r, grain);
      if out.entries != [] && out.entries[0].Recorded? then
        && CanAttempt(spec.limits, s.window, r.check) == Some(true) && out.entries == [Recorded(r.now, spec.createSnapshot)]
        && out.status.window == Persist(Record(spec.limits, s.window, r.now, r.later), grain)
      else if out.status.height != s.height then out.status.window == Window(None, 0, s.window.last)
      else out.status.window == s.window
  {
    match s.phase
    case Created =>
    case Monitoring =>
    case HeightStuck =>
    case CreatingSnapshot =>
    case WaitingForSnapshot =>
    case RunningRecovery =>
    case WaitingForRecovery =>
    case RecoveryComplete =>
    case RecoveryFailed =>
    case RateLimited =>
    case Suspended =>
  }

  lemma StepKeepsRate(w: World, e: Event, s: Setting)
    requires w.grain >= 1 && Enabled(w, e) && Floored(w.status, w.grain)
    requires Matches(w, s) && Fixed(e, s) && RateKept(w, s)
    ensures RateKept(Next(w, e), s)
  {
    if e.Reconcile? {
      var r := e.replies;
      var out := Step(w.name, e.spec, w.status, w.pods, r, w.grain);
      StepTouchesWindow(w.name, e.spec, w.status, w.pods, r, w.grain);
      if out.entries != [] && out.entries[0].Recorded? {
        AttemptKeeps(s, e.spec.limits, HistoryOf(w), r.check, r.now, r.later);
      }
      assert HistoryOf(Next(w, e)) == Track(w, e.spec, out, r);
    }
  }

  // ----- runs

  ghost predicate Inv(w: World) {
    && w.grain >= 1 && Floored(w.status, w.grain) && Faithful(w.status, w.log, w.grain)
    && LostDiffers(w.log) && AllJustified(w.log, w.grain) && Paid(w.name, w.status, w.pods, w.log) && CycleKept(w) && AllSecured(w.log)
  }

  lemma StepKeepsInv(w: World, e: Event)
    requires Inv(w) && Enabled(w, e)
    ensures Inv(Next(w, e))
  {
    StepStaysFloored(w, e);
    StepStaysFaithful(w, e);
    StepStaysDifferent(w, e);
    StepStaysJustified(w, e);
    StepStaysPaid(w, e);
    StepKeepsCycle(w, e);
    StepStaysSecured(w, e);
  }

  lemma {:induction false} RunKeepsInv(worlds: seq<World>, events: seq<Event>, n: nat)
    requires Run(worlds, events) && n <= |events|
    ensures Inv(worlds[n])
  {
    if n > 0 {
      RunKeepsInv(worlds, events, n - 1);
      StepKeepsInv(worlds[n - 1], events[n - 1]);
    }
  }

  lemma {:induction false} RunKeepsRate(worlds: seq<World>, events: seq<Event>, n: nat, s: Setting)
    requires Run(worlds, events) && n <= |events| && Matches(worlds[0], s)
    requires forall i :: 0 <= i < |events| ==> Fixed(events[i], s)
    ensures RateKept(worlds[n], s) && Matches(worlds[n], s)
  {
    if n > 0 {
      RunKeepsRate(worlds, events, n - 1, s);
      RunKeepsInv(worlds, events, n - 1);
      StepKeepsRate(worlds[n - 1], events[n - 1], s);
    }
  }

  // ----- the theorems

  /**
   * Rate bound: with fixed limits, the attempt counter never passes the maximum, every tumbling window holds at most
   * that many attempts and ends no earlier than it should, and any half-open interval of the
   * window's length, less the precision of stored times and the skew of clock readings, holds at most 2·max − 1 of
   * the attempts recorded since the height last changed.
   */
  lemma RateBound(worlds: seq<World>, events: seq<Event>, n: nat, s: Setting, lo: int, hi: int)
    requires Run(worlds, events) && n <= |events| && Matches(worlds[0], s)
    requires forall i :: 0 <= i < |events| ==> Fixed(events[i], s)
    requires hi - lo <= s.length - s.skew - (s.grain - 1)
    ensures 0 <= worlds[n].status.window.attempts <= s.max
    ensures forall k :: 0 <= k < |worlds[n].starts| ==> WindowKept(s, HistoryOf(worlds[n]), k)
    ensures CountIn(worlds[n].times, lo, hi) <= 2 * s.max - 1
  {
    RunKeepsRate(worlds, events, n, s);
    CounterBounded(s, HistoryOf(worlds[n]));
    SlidingRateBound(s, HistoryOf(worlds[n]), lo, hi);
  }

  /**
   * Stuck only when stuck: a height is declared stuck at time t only if it was observed and stored at a time that,
   * as persisted, is at most t less the stuck duration, and no stored observation since showed another height.
   */
  lemma StuckOnlyWhenStuck(worlds: seq<World>, events: seq<Event>, n: nat, j: nat)
    requires Run(worlds, events) && n <= |events| && j < |worlds[n].log| && worlds[n].log[j].Stuck?
    ensures worlds[n].grain >= 1
    ensures exists i :: 0 <= i < j && worlds[n].log[i].Observed? && Justified(worlds[n].log, j, i, worlds[n].grain)
  {
    RunKeepsInv(worlds, events, n);
  }

  /**
   * The same for all observations, exactly: between the one that justifies a declaration and the declaration, every
   * observation shows the same height iff none of them was lost. One is lost iff it differs from the stored height
   * and the status write that would store it does not take effect (`LostExactly`).
   */
  lemma ObservationsAgreeExactly(worlds: seq<World>, events: seq<Event>, n: nat, i: nat, j: nat)
    requires Run(worlds, events) && n <= |events| && worlds[n].grain >= 1
    requires i < j < |worlds[n].log| && worlds[n].log[j].Stuck? && worlds[n].log[i].Observed?
    requires Justified(worlds[n].log, j, i, worlds[n].grain)
    ensures var log := worlds[n].log;
      (forall k :: i <= k < j && log[k].Observed? ==> log[k].height == log[j].height) <==>
      (forall k :: i <= k < j && log[k].Observed? ==> log[k].kept)
  {
    RunKeepsInv(worlds, events, n);
    var log := worlds[n].log;
    forall k | i < k < j && log[k].Observed? && !log[k].kept ensures log[k].height != log[j].height {
      SteadyHeld(log, i, k);
    }
  }

  lemma LostExactly(name: string, spec: Spec, s: Status, pods: set<string>, r: Replies, grain: int)
    requires grain >= 1
    ensures var es := Step(name, spec, s, pods, r, grain).entries;
      es != [] && es[0].Observed? ==> (!es[0].kept <==> es[0].height != s.height && !Took(r.write))
  {
  }

  /** The branch of `CheckStuckHeight` for a known height without a time is never taken. */
  lemma KnownHeightHasTime(worlds: seq<World>, events: seq<Event>, n: nat)
    requires Run(worlds, events) && n <= |events|
    ensures worlds[n].status.height != 0 <==> worlds[n].status.heightTime.Some?
  {
    RunKeepsInv(worlds, events, n);
  }

  /** Recovery accounting: launches never outnumber recorded attempts, but for pods others deleted mid-attempt. */
  lemma LaunchesArePaid(worlds: seq<World>, events: seq<Event>, n: nat)
    requires Run(worlds, events) && n <= |events|
    ensures Launches(worlds[n].log) <= Recordings(worlds[n].log) + Disturbances(worlds[n].log)
  {
    RunKeepsInv(worlds, events, n);
  }

  /** An attempt that asked for a snapshot launches only after a snapshot of the PVC it mounts was reported ready. */
  lemma SnapshotFirst(worlds: seq<World>, events: seq<Event>, n: nat, j: nat)
    requires Run(worlds, events) && n <= |events| && j < |worlds[n].log| && worlds[n].log[j].Launched?
    ensures var c := Cycle(worlds[n].log[..j]);
      Begun(c) && (c[0].snapshotFirst ==> Secured(c, worlds[n].log[j].pvc))
  {
    RunKeepsInv(worlds, events, n);
    assert LaunchSecured(worlds[n].log, j);
  }

  /** Suspended is left only through a failed lookup of the fullnode, never by clearing Suspend alone. */
  lemma LeavingSuspended(w: World, spec: Spec, r: Replies)
    requires w.grain >= 1 && Enabled(w, Reconcile(spec, r)) && w.status.phase.Suspended?
    ensures !Next(w, Reconcile(spec, r)).status.phase.Suspended? <==> !spec.suspend && !r.fullNode && Took(r.write)
    ensures !spec.suspend && r.fullNode ==> Next(w, Reconcile(spec, r)).status == w.status
  {
  }

  // ----- the phase graph

  /** A successful check that finds nothing stuck and whose writes, one or two, all take effect. */
  predicate StaysUp(c: Checked, s: Status, r: Replies) {
    c.Checked? && !c.stuck && (c.height != s.height ==> r.write.Acked? && Took(r.second))
  }

  /** With the write taking effect, each phase is entered exactly for its own reason. */
  lemma PhasesEnteredExactly(name: string, spec: Spec, s: Status, pods: set<string>, r: Replies, grain: int)
    requires grain >= 1 && !spec.suspend && r.fullNode && Took(r.write)
    ensures var t := Step(name, spec, s, pods, r, grain).status.phase;
      var can := CanAttempt(spec.limits, s.window, r.check);
      var monitoring := s.phase.Created? || s.phase.Monitoring?;
      var free := RecoveryPodName(name, s.stuckPod) !in pods;
      && (t.HeightStuck? && !s.phase.HeightStuck? <==>
            monitoring && CheckStuckHeight(spec, s, r.picked, r.check) == Checked(true, if r.picked.Some? then r.picked.value.0 else "", s.height))
      && (t.Monitoring? && !s.phase.Monitoring? <==>
            || s.phase.RecoveryComplete? || s.phase.RecoveryFailed? || (s.phase.RateLimited? && can == Some(true))
            || (s.phase.Created? && StaysUp(CheckStuckHeight(spec, s, r.picked, r.check), s, r)))
      && (t.RateLimited? && !s.phase.RateLimited? <==> s.phase.HeightStuck? && can == Some(false))
      && (t.CreatingSnapshot? && !s.phase.CreatingSnapshot? <==> s.phase.HeightStuck? && can == Some(true) && spec.createSnapshot)
      && (t.WaitingForSnapshot? && !s.phase.WaitingForSnapshot? <==>
            s.phase.CreatingSnapshot? && r.claim.Some? && r.snapshot.Acked?)
      && (t.RunningRecovery? && !s.phase.RunningRecovery? <==>
            || (s.phase.HeightStuck? && can == Some(true) && !spec.createSnapshot)
            || (s.phase.WaitingForSnapshot? && r.ready == Some(true)))
      && (t.WaitingForRecovery? && !s.phase.WaitingForRecovery? <==>
            s.phase.RunningRecovery? && r.claim.Some? && free && r.pod.Acked?)
      && (t.RecoveryComplete? && !s.phase.RecoveryComplete? <==> s.phase.WaitingForRecovery? && r.completion.Succeeded?)
      && (t.RecoveryFailed? && !s.phase.RecoveryFailed? <==>
            || (s.phase.CreatingSnapshot? && (r.claim.None? || r.snapshot.Unacked?))
            || (s.phase.RunningRecovery? && (r.claim.None? || !free || r.pod.Unacked?))
            || (s.phase.WaitingForRecovery? && r.completion.Failed?))
  {
  }

  /** The names in the status: set on entering a phase, cleared on returning to monitoring. */
  lemma NamesFollowPhases(name: string, spec: Spec, s: Status, pods: set<string>, r: Replies, grain: int)
    requires grain >= 1
    ensures var t := Step(name, spec, s, pods, r, grain).status;
      var back := (s.phase.RecoveryComplete? || s.phase.RecoveryFailed?) && t.phase.Monitoring?;
      && t.stuckPod == (if t.phase.HeightStuck? && !s.phase.HeightStuck? && r.picked.Some? then r.picked.value.0
                        else if back then "" else s.stuckPod)
      && t.recoveryPod == (if t.phase.WaitingForRecovery? && !s.phase.WaitingForRecovery? then RecoveryPodName(name, s.stuckPod)
                           else if back then "" else s.recoveryPod)
      && t.snapshot == (if t.phase.WaitingForSnapshot? && !s.phase.WaitingForSnapshot? then r.snapshotName
                        else if back && s.phase.RecoveryComplete? then "" else s.snapshot)
  {
    match s.phase
    case Created =>
    case Monitoring =>
    case HeightStuck =>
    case CreatingSnapshot =>
    case WaitingForSnapshot =>
    case RunningRecovery =>
    case WaitingForRecovery =>
    case RecoveryComplete =>
    case RecoveryFailed =>
    case RateLimited =>
    case Suspended =>
  }

  // ----- Suspend

  /** A suspended reconcile changes nothing but the phase, which ends as Suspended iff it was or the write took effect. */
  lemma SuspendFreezes(name: string, spec: Spec, s: Status, pods: set<string>, r: Replies, grain: int)
    requires grain >= 1 && spec.suspend && Floored(s, grain)
    ensures var out := Step(name, spec, s, pods, r, grain);
      && out.pods == pods && out.entries == [] && out.status == s.(phase := out.status.phase)
      && (out.status.phase.Suspended? <==> s.phase.Suspended? || Took(r.write))
      && (!out.status.phase.Suspended? ==> out.status == s)
  {
  }

  /** Without the fullnode a reconcile changes nothing but the phase, to RecoveryFailed. */
  lemma MissingFullNodeFails(name: string, spec: Spec, s: Status, pods: set<string>, r: Replies, grain: int)
    requires grain >= 1 && !spec.suspend && !r.fullNode && Floored(s, grain)
    ensures Step(name, spec, s, pods, r, grain) == Outcome(if Took(r.write) then s.(phase := RecoveryFailed) else s, pods, [])
  {
  }

  /** Event `m` is the reconcile that wrote entry `j`: not suspended, with the fullnode at hand. */
  ghost predicate Wrote(worlds: seq<World>, events: seq<Event>, m: nat, j: nat)
    requires m < |events| && |worlds| == |events| + 1
  {
    && |worlds[m].log| <= j < |worlds[m + 1].log|
    && events[m].Reconcile? && !events[m].spec.suspend && events[m].replies.fullNode
  }

  lemma StepAppends(w: World, e: Event)
    requires w.grain >= 1 && Enabled(w, e) && Floored(w.status, w.grain)
    ensures w.log <= Next(w, e).log
    ensures e.Reconcile? && (e.spec.suspend || !e.replies.fullNode) ==> Next(w, e).log == w.log
    ensures forall j :: |w.log| <= j < |Next(w, e).log| ==> e.Reconcile? || Next(w, e).log[j].Disturbed?
  {
    if e.Reconcile? && e.spec.suspend {
      SuspendFreezes(w.name, e.spec, w.status, w.pods, e.replies, w.grain);
    } else if e.Reconcile? && !e.replies.fullNode {
      MissingFullNodeFails(w.name, e.spec, w.status, w.pods, e.replies, w.grain);
    }
  }

  /** On every run no height is observed, no attempt recorded, no snapshot taken and no pod launched while suspended. */
  lemma {:induction false} NothingWhileSuspended(worlds: seq<World>, events: seq<Event>, n: nat, j: nat) returns (m: nat)
    requires Run(worlds, events) && n <= |events| && j < |worlds[n].log| && !worlds[n].log[j].Disturbed?
    ensures m < n && Wrote(worlds, events, m, j)
  {
    RunKeepsInv(worlds, events, n - 1);
    StepAppends(worlds[n - 1], events[n - 1]);
    if j < |worlds[n - 1].log| {
      m := NothingWhileSuspended(worlds, events, n - 1, j);
    } else {
      m := n - 1;
    }
  }

  // ----- what the theorems cannot leave out

  /**
   * Why only kept observations count: if the write that stores a changed height is lost, a later look at a pod that
   * still shows the old height declares it stuck, although a different height was seen in between.
   */
  lemma LostWriteHidesChange(w: World, spec: Spec, r: Replies, again: Replies)
    requires w.grain >= 1 && w.status.phase.Monitoring? && w.status.heightTime.Some?
    requires !spec.suspend && spec.stuckDuration.Some? && r.fullNode && again.fullNode
    requires r.picked.Some? && r.picked.value.1 > 0 && r.picked.value.1 != w.status.height && !Took(r.write)
    requires again.picked.Some? && again.picked.value.1 == w.status.height > 0 && Took(again.write)
    requires again.check - w.status.heightTime.value >= spec.stuckDuration.value
    requires Enabled(w, Reconcile(spec, r)) && Enabled(Next(w, Reconcile(spec, r)), Reconcile(spec, again))
    ensures var n := Next(Next(w, Reconcile(spec, r)), Reconcile(spec, again));
      && n.status.phase.HeightStuck?
      && n.log == w.log + [Observed(r.now, r.picked.value.1, false)] +
                  [Observed(again.now, w.status.height, true), Stuck(again.check, w.status.height, spec.stuckDuration.value)]
  {
  }

  /** Why disturbances count: a lost write leaves RunningRecovery, and with the pod deleted it is launched again. */
  lemma DeletedPodLaunchesTwice(w: World, spec: Spec, r: Replies, again: Replies)
    requires w.grain >= 1 && w.status.phase.RunningRecovery? && OwnPod(w) !in w.pods
    requires !spec.suspend && r.fullNode && r.claim.Some? && Took(r.pod) && !Took(r.write)
    requires again.fullNode && again.claim.Some? && Took(again.pod) && r.later <= again.check
    requires Enabled(w, Reconcile(spec, r)) && Enabled(w, Reconcile(spec, again))
    ensures var v := Next(w, Reconcile(spec, r));
      && Enabled(v, PodVanishes(OwnPod(w)))
      && var g := Next(v, PodVanishes(OwnPod(w)));
         && Enabled(g, Reconcile(spec, again))
         && Next(g, Reconcile(spec, again)).log ==
            w.log + [Launched(OwnPod(w), r.claim.value)] + [Disturbed(OwnPod(w))] + [Launched(OwnPod(w), r.claim.value)]
  {
  }

  // ----- both happen from a fresh start

  function Look(picked: Option<(string, nat)>, claim: Option<string>, at: int, write: Write): Replies {
    Replies(true, picked, claim, Acked, "", None, Acked, StillRunning, write, Acked, at, at, at)
  }

  function Start(grain: int): World {
    World("r", grain, 0, map["a" := "pvc-a"], New, {}, 0, [], [], [])
  }

  /** Watches for a height stuck for `d`, with the default limits and no snapshot. */
  function Watch(d: int): Spec {
    Spec(false, false, Some(d), Limits(None, Unset))
  }

  /** The world once height 5 was seen and stored at time 0. */
  function Seen(grain: int): World {
    Start(grain).(status := New.(phase := Monitoring, height := 5, heightTime := Some(0)), log := [Observed(0, 5, true)])
  }

  lemma FirstLook(grain: int, d: int)
    requires grain >= 1
    ensures var e := Reconcile(Watch(d), Look(Some(("a", 5)), None, 0, Acked));
      Enabled(Start(grain), e) && Next(Start(grain), e) == Seen(grain)
  {
    FloorOfSmall(0, grain);
  }

  /** A run from a fresh start that declares height 5 stuck although height 6 was seen in between. */
  lemma LostWriteRun(grain: int, d: int) returns (worlds: seq<World>, events: seq<Event>)
    requires grain >= 1 && d >= 1
    ensures Run(worlds, events) && |events| == 3
    ensures worlds[3].log == [Observed(0, 5, true), Observed(1, 6, false), Observed(d, 5, true), Stuck(d, 5, d)]
  {
    var spec := Watch(d);
    var r, again := Look(Some(("b", 6)), None, 1, Unacked(false)), Look(Some(("a", 5)), None, d, Acked);
    FirstLook(grain, d);
    LookIsLost(grain, d);
    LostWriteHidesChange(Seen(grain), spec, r, again);
    worlds, events := [Start(grain)], [];
    worlds, events := Extended(worlds, events, Reconcile(spec, Look(Some(("a", 5)), None, 0, Acked)));
    worlds, events := Extended(worlds, events, Reconcile(spec, r));
    worlds, events := Extended(worlds, events, Reconcile(spec, again));
  }

  lemma LookIsLost(grain: int, d: int)
    requires grain >= 1
    ensures var e := Reconcile(Watch(d), Look(Some(("b", 6)), None, 1, Unacked(false)));
      Enabled(Seen(grain), e) && Next(Seen(grain), e) == Seen(grain).(clock := 1, log := [Observed(0, 5, true), Observed(1, 6, false)])
  {
    assert [Observed(0, 5, true)] + [Observed(1, 6, false)] == [Observed(0, 5, true), Observed(1, 6, false)];
  }

  /** The world once height 5 is declared stuck. */
  function Declared(grain: int, d: int): World {
    Seen(grain).(status := Seen(grain).status.(phase := HeightStuck, stuckPod := "a"), clock := d,
                 log := [Observed(0, 5, true), Observed(d, 5, true), Stuck(d, 5, d)])
  }

  lemma SecondLook(grain: int, d: int)
    requires grain >= 1 && d >= 1
    ensures var e := Reconcile(Watch(d), Look(Some(("a", 5)), None, d, Acked));
      Enabled(Seen(grain), e) && Next(Seen(grain), e) == Declared(grain, d)
  {
    FloorOfSmall(0, grain);
    assert [Observed(0, 5, true)] + [Observed(d, 5, true), Stuck(d, 5, d)] == Declared(grain, d).log;
  }

  /** The world once the attempt is recorded. */
  function Attempting(grain: int, d: int): World
    requires grain >= 1
  {
    var w := Declared(grain, d);
    w.(status := w.status.(phase := RunningRecovery, window := Window(Some(Floor(d, grain)), 1, Some(Floor(d, grain)))),
       log := w.log + [Recorded(d, false)], times := [d], starts := [0])
  }

  lemma Records(grain: int, d: int)
    requires grain >= 1 && d >= 1
    ensures var e := Reconcile(Watch(d), Look(None, None, d, Acked));
      Enabled(Declared(grain, d), e) && Next(Declared(grain, d), e) == Attempting(grain, d)
  {
    FloorOfSmall(0, grain);
  }

  /** A run from a fresh start with one recorded attempt and two launches. */
  lemma DeletedPodRun(grain: int, d: int) returns (worlds: seq<World>, events: seq<Event>)
    requires grain >= 1 && d >= 1
    ensures Run(worlds, events) && |events| == 6
    ensures Launches(worlds[6].log) == 2 && Recordings(worlds[6].log) == 1
  {
    var spec, r := Watch(d), Look(None, Some("pvc-a"), d, Unacked(false));
    var w3 := Attempting(grain, d);
    worlds, events := AttemptRun(grain, d);
    DeletedPodLaunchesTwice(w3, spec, r, r);
    worlds, events := Extended(worlds, events, Reconcile(spec, r));
    worlds, events := Extended(worlds, events, PodVanishes(OwnPod(w3)));
    worlds, events := Extended(worlds, events, Reconcile(spec, r));
    CountLaunches(w3.log, OwnPod(w3), "pvc-a");
    CountRecorded(Declared(grain, d).log, d);
  }

  lemma AttemptRun(grain: int, d: int) returns (worlds: seq<World>, events: seq<Event>)
    requires grain >= 1 && d >= 1
    ensures Run(worlds, events) && |events| == 3 && worlds[3] == Attempting(grain, d)
  {
    FirstLook(grain, d);
    SecondLook(grain, d);
    Records(grain, d);
    var spec := Watch(d);
    worlds, events := [Start(grain)], [];
    worlds, events := Extended(worlds, events, Reconcile(spec, Look(Some(("a", 5)), None, 0, Acked)));
    worlds, events := Extended(worlds, events, Reconcile(spec, Look(Some(("a", 5)), None, d, Acked)));
    worlds, events := Extended(worlds, events, Reconcile(spec, Look(None, None, d, Acked)));
  }

  /** A run with one more event. */
  lemma Extended(worlds: seq<World>, events: seq<Event>, e: Event) returns (ws: seq<World>, es: seq<Event>)
    requires Run(worlds, events) && worlds[|events|].grain >= 1 && Enabled(worlds[|events|], e)
    ensures Run(ws, es) && |es| == |events| + 1 && ws[|es|] == Next(worlds[|events|], e)
  {
    ws, es := worlds + [Next(worlds[|events|], e)], events + [e];
  }

  lemma CountLaunches(log: seq<Entry>, pod: string, pvc: string)
    ensures var n := log + [Launched(pod, pvc)] + [Disturbed(pod)] + [Launched(pod, pvc)];
      Launches(n) == Launches(log) + 2 && Recordings(n) == Recordings(log)
  {
    var a := log + [Launched(pod, pvc)];
    CountOneMore(log, Launched(pod, pvc));
    CountOneMore(a, Disturbed(pod));
    CountOneMore(a + [Disturbed(pod)], Launched(pod, pvc));
  }

  lemma CountOneMore(log: seq<Entry>, e: Entry)
    ensures Launches(log + [e]) == Launches(log) + if e.Launched? then 1 else 0
    ensures Recordings(log + [e]) == Recordings(log) + if e.Recorded? then 1 else 0
  {
    assert (log + [e])[..|log|] == log;
  }

  lemma CountRecorded(log: seq<Entry>, t: int)
    requires Neutral(log)
    ensures Recordings(log + [Recorded(t, false)]) == 1 && Launches(log + [Recorded(t, false)]) == 0
  {
    NeutralCounts([], log);
    assert [] + log == log;
    CountOneMore(log, Recorded(t, false));
  }
}
