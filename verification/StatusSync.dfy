/**
 * Writers of one CosmosFullNode's status: `SyncUpdate` (internal/fullnode/status_client.go) as used by the fullnode,
 * snapshot and self-healing controllers, and the height patch of cmd/versioncheck.go, which bypasses it.
 *
 * The API server accepts a status update only if it carries the current resource version. Reads go through an
 * informer cache, so a read may return any earlier version.
 */
module StatusSync {
  import opened Common
  import opened Names

  datatype SyncInfo = SyncInfo(height: Option<nat>, inSync: Option<bool>, error: Option<string>)

  /** `FullNodeStatus`; autoscale maps a PVC to its requested size, holds maps a snapshot key to a pod. */
  datatype Status = Status(generation: int, phase: string, message: Option<string>, peers: seq<string>,
                           sync: map<Bytes, SyncInfo>, height: map<Bytes, nat>,
                           holds: map<Bytes, Bytes>, autoscale: map<Bytes, int>)

  /** The closures handed to SyncUpdate, and the direct patch. */
  datatype Update =
    | FullNode(generation: int, phase: string, message: Option<string>, peers: seq<string>,
               sync: map<Bytes, SyncInfo>, deleted: seq<Bytes>)
    | HoldPod(key: Bytes, pod: Bytes)
    | ReleasePod(key: Bytes)
    | RequestSizes(patches: map<Bytes, int>)
    | PatchHeight(instance: Bytes, height: nat)

  // ----- what each writer touches

  /** The block going through consensus at each pod that reported a height. */
  function Heights(sync: map<Bytes, SyncInfo>): map<Bytes, nat> {
    map k | k in sync && sync[k].height.Some? && sync[k].height.value > 0 :: sync[k].height.value + 1
  }

  function Listed(keys: seq<Bytes>): (r: set<Bytes>)
    ensures forall k :: k in r <==> k in keys
  {
    set k | k in keys
  }

  function Apply(u: Update, s: Status): Status {
    match u
    case FullNode(generation, phase, message, peers, sync, deleted) =>
      s.(generation := generation, phase := phase, message := message, peers := peers, sync := sync,
         height := s.height + Heights(sync), autoscale := s.autoscale - Listed(deleted))
    case HoldPod(key, pod) => s.(holds := s.holds[key := pod])
    case ReleasePod(key) => s.(holds := s.holds - {key})
    case RequestSizes(patches) => s.(autoscale := s.autoscale + patches)
    case PatchHeight(instance, height) => s.(height := s.height[instance := height])
  }

  /** The heights loop of the fullnode's closure. */
  method PutHeights(was: map<Bytes, nat>, sync: map<Bytes, SyncInfo>) returns (heights: map<Bytes, nat>)
    ensures heights == was + Heights(sync)
  {
    heights := was;
    var todo := sync.Keys;
    while todo != {}
      invariant todo <= sync.Keys
      invariant forall k :: k in heights <==> k in was || (k in Heights(sync) && k !in todo)
      invariant forall k :: k in heights ==> heights[k] == if k in Heights(sync) && k !in todo then Heights(sync)[k] else was[k]
    {
      var k :| k in todo;
      var v := sync[k];
      if v.height.Some? && v.height.value > 0 {
        heights := heights[k := v.height.value + 1];
      }
      todo := todo - {k};
    }
  }

  /** The clean-up loop of the fullnode's closure. */
  method DropSizes(was: map<Bytes, int>, deleted: seq<Bytes>) returns (sizes: map<Bytes, int>)
    ensures sizes == was - Listed(deleted)
  {
    sizes := was;
    for i := 0 to |deleted|
      invariant forall k :: k in sizes <==> k in was && k !in deleted[..i]
      invariant forall k :: k in sizes ==> sizes[k] == was[k]
    {
      assert deleted[..i + 1] == deleted[..i] + [deleted[i]];
      sizes := sizes - {deleted[i]};
    }
    assert deleted[..|deleted|] == deleted;
  }

  class StatusObject {
    var status: Status

    constructor (status: Status)
      ensures this.status == status
    {
      this.status := status;
    }

    /** The closure of `updateStatus` (controllers/cosmosfullnode_controller.go), with its two loops. */
    method UpdateFromReconcile(generation: int, phase: string, message: Option<string>, peers: seq<string>,
                               sync: map<Bytes, SyncInfo>, deleted: seq<Bytes>)
      modifies this
      ensures status == Apply(FullNode(generation, phase, message, peers, sync, deleted), old(status))
    {
      status := status.(generation := generation, phase := phase, message := message, peers := peers, sync := sync);
      var heights := PutHeights(status.height, sync);
      var sizes := DropSizes(status.autoscale, deleted);
      status := status.(height := heights, autoscale := sizes);
    }

    /** The closure of `SignalPVCResize` (internal/fullnode/pvc_auto_scaler.go). */
    method RequestResize(patches: map<Bytes, int>)
      modifies this
      ensures status == Apply(RequestSizes(patches), old(status))
    {
      ghost var was := status.autoscale;
      var sizes := status.autoscale;
      var todo := patches.Keys;
      while todo != {}
        invariant todo <= patches.Keys
        invariant forall k :: k in sizes <==> k in was || (k in patches && k !in todo)
        invariant forall k :: k in sizes ==> sizes[k] == if k in patches && k !in todo then patches[k] else was[k]
      {
        var k :| k in todo;
        sizes := sizes[k := patches[k]];
        todo := todo - {k};
      }
      assert sizes == was + patches;
      status := status.(autoscale := sizes);
    }
  }

  function ApplyAll(log: seq<Update>, s: Status): Status {
    if log == [] then s else Apply(log[|log| - 1], ApplyAll(log[..|log| - 1], s))
  }

  // ----- interleaved calls

  type Id = nat

  /** Where a SyncUpdate call is: waiting for the semaphore, holding it, holding it with a copy read, or through. */
  datatype Call = Waiting | Holding | HasRead(version: nat) | Finished

  /**
   * `history` are the statuses the API server has stored, `log` the updates that produced them, `turns` the calls
   * in the order they acquired the semaphore, and `commits` says for each entry of the log in which turn it was written,
   * None being a direct patch.
   */
  datatype World = World(history: seq<Status>, log: seq<Update>, calls: map<Id, (Update, Call)>, holder: Option<Id>,
                         turns: seq<Id>, commits: seq<Option<nat>>)

  datatype Event =
    | Begin(id: Id, update: Update)
    | Acquire(id: Id)
    | Read(id: Id, version: nat)
    | Fail(id: Id)
    | Write(id: Id)
    | Release(id: Id)
    | Patch(update: Update)

  predicate At(w: World, id: Id, c: Call) {
    id in w.calls && w.calls[id].1 == c
  }

  function Move(w: World, id: Id, c: Call): World
    requires id in w.calls
  {
    w.(calls := w.calls[id := (w.calls[id].0, c)])
  }

  predicate Enabled(w: World, e: Event) {
    w.history != [] &&
    match e
    case Begin(id, u) => id !in w.calls
    case Acquire(id) => At(w, id, Waiting) && w.holder.None?
    case Read(id, v) => At(w, id, Holding) && v < |w.history|
    case Fail(id) => id in w.calls && (w.calls[id].1.Holding? || w.calls[id].1.HasRead?)
    case Write(id) => id in w.calls && w.calls[id].1.HasRead? && w.turns != []
    case Release(id) => At(w, id, Finished) && w.holder == Some(id)
    case Patch(u) => u.PatchHeight?
  }

  /** A write that the server accepts may still be reported as failed; either way the call is through. */
  function Next(w: World, e: Event): World
    requires Enabled(w, e)
  {
    match e
    case Begin(id, u) => w.(calls := w.calls[id := (u, Waiting)])
    case Acquire(id) => Move(w, id, Holding).(holder := Some(id), turns := w.turns + [id])
    case Read(id, v) => Move(w, id, HasRead(v))
    case Fail(id) => Move(w, id, Finished)
    case Write(id) =>
      var v := w.calls[id].1.version;
      var u := w.calls[id].0;
      if v == |w.history| - 1 then
        Move(w, id, Finished).(history := w.history + [Apply(u, w.history[v])], log := w.log + [u],
                               commits := w.commits + [Some(|w.turns| - 1)])
      else Move(w, id, Finished)
    case Release(id) => w.(holder := None)
    case Patch(u) => w.(history := w.history + [Apply(u, w.history[|w.history| - 1])], log := w.log + [u],
                         commits := w.commits + [None])
  }

  predicate Initial(w: World) {
    |w.history| == 1 && w.log == [] && w.calls == map[] && w.holder.None? && w.turns == [] && w.commits == []
  }

  predicate Run(worlds: seq<World>, events: seq<Event>) {
    && |worlds| == |events| + 1 && Initial(worlds[0])
    && forall i :: 0 <= i < |events| ==> Enabled(worlds[i], events[i]) && worlds[i + 1] == Next(worlds[i], events[i])
  }

  // ----- nothing is lost

  /** Each stored status is the previous one with one update applied. */
  predicate Serial(w: World) {
    |w.history| == |w.log| + 1 && forall i :: 0 <= i < |w.log| ==> w.history[i + 1] == Apply(w.log[i], w.history[i])
  }

  /** Only the holder is past Waiting and not through, and it got the last turn. */
  predicate Exclusive(w: World) {
    && (forall id :: id in w.calls && (w.calls[id].1.Holding? || w.calls[id].1.HasRead?) ==> w.holder == Some(id))
    && (w.holder.Some? ==> w.turns != [] && w.turns[|w.turns| - 1] == w.holder.value && w.holder.value in w.calls)
  }

  /** Every entry was written by the call whose turn it was, or patched directly; at most one per turn, in order. */
  predicate InTurn(w: World) {
    && |w.commits| == |w.log|
    && (forall i :: 0 <= i < |w.log| && w.commits[i].None? ==> w.log[i].PatchHeight?)
    && (forall i :: 0 <= i < |w.log| && w.commits[i].Some? ==> Authored(w, w.commits[i].value, w.log[i]))
    && (forall i, j :: 0 <= i < j < |w.log| && w.commits[i].Some? && w.commits[j].Some? ==>
          w.commits[i].value < w.commits[j].value)
  }

  /** Turn `t` was taken by a call made to apply `u`. */
  predicate Authored(w: World, t: nat, u: Update) {
    t < |w.turns| && w.turns[t] in w.calls && w.calls[w.turns[t]].0 == u
  }

  /** The call that holds the semaphore and is not through has not written yet. */
  predicate NotYetWritten(w: World) {
    w.holder.Some? && w.holder.value in w.calls && !w.calls[w.holder.value].1.Finished? ==>
      forall i :: 0 <= i < |w.commits| && w.commits[i].Some? ==> w.commits[i].value < |w.turns| - 1
  }

  predicate Inv(w: World) {
    Serial(w) && Exclusive(w) && InTurn(w) && NotYetWritten(w)
  }

  lemma StepStaysSerial(w: World, e: Event)
    requires Serial(w) && Enabled(w, e)
    ensures Serial(Next(w, e)) && w.history <= Next(w, e).history && w.log <= Next(w, e).log
  {
  }

  lemma StepStaysExclusive(w: World, e: Event)
    requires Exclusive(w) && Enabled(w, e)
    ensures Exclusive(Next(w, e))
  {
  }

  /** No step changes what a call was made for, forgets a turn or rewrites the log. */
  lemma StepOnlyAppends(w: World, e: Event)
    requires InTurn(w) && Enabled(w, e)
    ensures w.turns <= Next(w, e).turns && w.log <= Next(w, e).log && w.commits <= Next(w, e).commits
    ensures forall id :: id in w.calls ==> id in Next(w, e).calls && Next(w, e).calls[id].0 == w.calls[id].0
  {
  }

  lemma StepStaysInTurn(w: World, e: Event)
    requires Exclusive(w) && InTurn(w) && NotYetWritten(w) && Enabled(w, e)
    ensures InTurn(Next(w, e))
  {
    var n := Next(w, e);
    StepOnlyAppends(w, e);
    forall i | 0 <= i < |w.log| && w.commits[i].Some?
      ensures Authored(n, w.commits[i].value, w.log[i])
    {
      assert Authored(w, w.commits[i].value, w.log[i]);
    }
  }

  lemma StepStaysNotYetWritten(w: World, e: Event)
    requires Exclusive(w) && InTurn(w) && NotYetWritten(w) && Enabled(w, e)
    ensures NotYetWritten(Next(w, e))
  {
  }

  lemma StepKeepsInv(w: World, e: Event)
    requires Inv(w) && Enabled(w, e)
    ensures Inv(Next(w, e)) && w.history <= Next(w, e).history
  {
    StepStaysSerial(w, e);
    StepStaysExclusive(w, e);
    StepStaysInTurn(w, e);
    StepStaysNotYetWritten(w, e);
  }

  lemma {:induction false} RunKeepsInv(worlds: seq<World>, events: seq<Event>, n: nat)
    requires Run(worlds, events) && n <= |events|
    ensures Inv(worlds[n]) && worlds[n].history[0] == worlds[0].history[0]
  {
    if n > 0 {
      RunKeepsInv(worlds, events, n - 1);
      StepKeepsInv(worlds[n - 1], events[n - 1]);
    }
  }

  lemma {:induction false} SerialIsFold(history: seq<Status>, log: seq<Update>)
    requires |history| == |log| + 1
    requires forall i :: 0 <= i < |log| ==> history[i + 1] == Apply(log[i], history[i])
    ensures history[|log|] == ApplyAll(log, history[0])
  {
    if log != [] {
      SerialIsFold(history[..|log|], log[..|log| - 1]);
    }
  }

  /**
   * No lost update: however the calls and the direct patches interleave and however stale the reads, the stored
   * status is the initial one with every accepted update applied, one after the other. Every entry that is not a
   * direct patch was made by the call whose turn it was, and the turns ascend: acquire order.
   */
  lemma NoLostUpdate(worlds: seq<World>, events: seq<Event>, n: nat)
    requires Run(worlds, events) && n <= |events|
    ensures var w := worlds[n];
      && w.history != [] && w.history[|w.history| - 1] == ApplyAll(w.log, worlds[0].history[0])
      && InTurn(w)
  {
    RunKeepsInv(worlds, events, n);
    SerialIsFold(worlds[n].history, worlds[n].log);
  }

  // ----- nobody's entries are erased by another writer

  function HoldOf(s: Status, key: Bytes): Option<Bytes> {
    if key in s.holds then Some(s.holds[key]) else None
  }

  /** What the last signal about a key says, or `start` if there was none. */
  function LastSignal(log: seq<Update>, key: Bytes, start: Option<Bytes>): Option<Bytes> {
    if log == [] then start
    else
      match log[|log| - 1]
      case HoldPod(k, pod) => if k == key then Some(pod) else LastSignal(log[..|log| - 1], key, start)
      case ReleasePod(k) => if k == key then None else LastSignal(log[..|log| - 1], key, start)
      case _ => LastSignal(log[..|log| - 1], key, start)
  }

  lemma SignalOf(u: Update, s: Status, key: Bytes)
    ensures u.HoldPod? ==> HoldOf(Apply(u, s), key) == if u.key == key then Some(u.pod) else HoldOf(s, key)
    ensures u.ReleasePod? ==> HoldOf(Apply(u, s), key) == if u.key == key then None else HoldOf(s, key)
    ensures !u.HoldPod? && !u.ReleasePod? ==> Apply(u, s).holds == s.holds
  {
  }

  /** A hold is decided by its own snapshot's last signal, whatever else was written before, between or after. */
  lemma {:induction false} LastSignalWins(log: seq<Update>, s: Status, key: Bytes)
    ensures HoldOf(ApplyAll(log, s), key) == LastSignal(log, key, HoldOf(s, key))
  {
    if log != [] {
      LastSignalWins(log[..|log| - 1], s, key);
      SignalOf(log[|log| - 1], ApplyAll(log[..|log| - 1], s), key);
    }
  }

  function SizeOf(s: Status, pvc: Bytes): Option<int> {
    if pvc in s.autoscale then Some(s.autoscale[pvc]) else None
  }

  /** What the last request or clean-up about a PVC says. */
  function LastSize(log: seq<Update>, pvc: Bytes, start: Option<int>): Option<int> {
    if log == [] then start
    else
      match log[|log| - 1]
      case RequestSizes(patches) => if pvc in patches then Some(patches[pvc]) else LastSize(log[..|log| - 1], pvc, start)
      case FullNode(_, _, _, _, _, deleted) => if pvc in deleted then None else LastSize(log[..|log| - 1], pvc, start)
      case _ => LastSize(log[..|log| - 1], pvc, start)
  }

  /** A requested size survives everything but a later request for that PVC or the fullnode's clean-up naming it. */
  lemma {:induction false} LastSizeWins(log: seq<Update>, s: Status, pvc: Bytes)
    ensures SizeOf(ApplyAll(log, s), pvc) == LastSize(log, pvc, SizeOf(s, pvc))
  {
    if log != [] {
      LastSizeWins(log[..|log| - 1], s, pvc);
    }
  }

  function HeightOf(s: Status, instance: Bytes): Option<nat> {
    if instance in s.height then Some(s.height[instance]) else None
  }

  /** What the last writer that knew a height says: one above the committed height it reported, or the patched one. */
  function LastHeight(log: seq<Update>, instance: Bytes, start: Option<nat>): Option<nat> {
    if log == [] then start
    else
      var before := LastHeight(log[..|log| - 1], instance, start);
      match log[|log| - 1]
      case FullNode(_, _, _, _, sync, _) =>
        if instance in sync && sync[instance].height.Some? && sync[instance].height.value > 0 then Some(1 + sync[instance].height.value)
        else before
      case PatchHeight(i, h) => if i == instance then Some(h) else before
      case _ => before
  }

  lemma HeightWritten(u: Update, s: Status, instance: Bytes)
    ensures HeightOf(Apply(u, s), instance) == LastHeight([u], instance, HeightOf(s, instance))
  {
    assert LastHeight([], instance, HeightOf(s, instance)) == HeightOf(s, instance);
  }

  /** A height survives every writer that has none for that instance, the fullnode's included. */
  lemma {:induction false} LastHeightWins(log: seq<Update>, s: Status, instance: Bytes)
    ensures HeightOf(ApplyAll(log, s), instance) == LastHeight(log, instance, HeightOf(s, instance))
  {
    if log != [] {
      LastHeightWins(log[..|log| - 1], s, instance);
      HeightWritten(log[|log| - 1], ApplyAll(log[..|log| - 1], s), instance);
      assert [log[|log| - 1]][..0] == [];
    }
  }

  /** The fields that belong to the fullnode's reconcile alone. */
  datatype Own = Own(generation: int, phase: string, message: Option<string>, peers: seq<string>, sync: map<Bytes, SyncInfo>)

  function OwnOf(s: Status): Own {
    Own(s.generation, s.phase, s.message, s.peers, s.sync)
  }

  function LastReconcile(log: seq<Update>, start: Own): Own {
    if log == [] then start
    else if log[|log| - 1].FullNode? then
      var u := log[|log| - 1];
      Own(u.generation, u.phase, u.message, u.peers, u.sync)
    else LastReconcile(log[..|log| - 1], start)
  }

  /** Those are as its last update left them, whatever the other controllers wrote. */
  lemma {:induction false} LastReconcileWins(log: seq<Update>, s: Status)
    ensures OwnOf(ApplyAll(log, s)) == LastReconcile(log, OwnOf(s))
  {
    if log != [] {
      LastReconcileWins(log[..|log| - 1], s);
    }
  }
}
