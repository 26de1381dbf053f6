/**
 * `BuildPVCs` (internal/fullnode/pvc_builder.go) and `PVCControl.Reconcile` (internal/fullnode/pvc_control.go): the
 * claims wanted, and creating, deleting and resizing towards them.
 */
module PvcControl {
  import opened Common
  import opened Names
  import opened Diff
  import Storage
  import BuildPods

  /** A TypedLocalObjectReference. */
  datatype Ref = Ref(apiGroup: Option<string>, kind: string, name: string)

  datatype DataSource = DataSource(ref: Option<Ref>, size: real)

  /** A claim of the cluster: `size` is the requested storage, `capacity` that of its status. */
  datatype Claim = Claim(key: Bytes, revision: string, ordinal: int, size: real, source: Option<Ref>,
                         bound: bool, terminating: bool, capacity: real)

  /** The part of a wanted claim that is created or patched. */
  datatype ClaimBody = ClaimBody(size: real, source: Option<Ref>)

  type Pvc = Resource<ClaimBody>

  /** `dataSourceEqual`. */
  function SameSource(a: Option<Ref>, b: Option<Ref>): (r: bool)
    ensures r <==> a == b
  {
    if a.None? && b.None? then true
    else if a.None? || b.None? then false
    else if a.value.kind != b.value.kind || a.value.name != b.value.name then false
    else if a.value.apiGroup.None? != b.value.apiGroup.None? then false
    else if a.value.apiGroup.Some? && b.value.apiGroup.Some? && a.value.apiGroup.value != b.value.apiGroup.value then false
    else true
  }

  function FindClaim(claims: seq<Claim>, key: Bytes): (c: Option<Claim>)
    ensures c.Some? ==> c.value in claims && c.value.key == key
    ensures c.None? <==> forall d :: d in claims ==> d.key != key
  {
    if claims == [] then None
    else if claims[0].key == key then Some(claims[0])
    else FindClaim(claims[1..], key)
  }

  // ----- where a claim's content comes from

  /**
   * What of a CosmosFullNode decides its claims. `found` is the data source a lookup yields for an instance, None
   * without one or if the lookup fails; `scaled` the sizes requested by auto-scaling.
   */
  datatype Spec = Spec(name: Bytes, replicas: int, overrides: map<Bytes, Option<BuildPods.Disable>>, template: real,
                       found: map<nat, DataSource>, scaled: map<Bytes, real>)

  /** The data source of an instance: none for an existing claim unless it changed, the template's size for a new one. */
  function SourceFor(s: Spec, claims: seq<Claim>, i: nat): Option<DataSource> {
    var c := FindClaim(claims, PvcName(s.name, i));
    if c.Some? then
      if i in s.found && !SameSource(c.value.source, s.found[i].ref) then Some(s.found[i]) else None
    else if i in s.found then Some(s.found[i])
    else Some(DataSource(None, s.template))
  }

  /** The first loop of `Reconcile`. */
  method DataSources(s: Spec, claims: seq<Claim>) returns (sources: map<nat, DataSource>)
    ensures forall i: nat :: i in sources <==> i < s.replicas && SourceFor(s, claims, i).Some?
    ensures forall i: nat :: i in sources ==> SourceFor(s, claims, i) == Some(sources[i])
  {
    sources := map[];
    var i: nat := 0;
    while i < s.replicas
      invariant s.replicas >= 0 ==> i <= s.replicas
      invariant s.replicas < 0 ==> i == 0
      invariant forall j: nat :: j in sources <==> j < i && SourceFor(s, claims, j).Some?
      invariant forall j: nat :: j in sources ==> SourceFor(s, claims, j) == Some(sources[j])
    {
      var existing := FindClaim(claims, PvcName(s.name, i));
      if existing.Some? {
        if i in s.found && !SameSource(existing.value.source, s.found[i].ref) {
          sources := sources[i := s.found[i]];
        }
      } else {
        var ds := if i in s.found then s.found[i] else DataSource(None, s.template);
        sources := sources[i := ds];
      }
      i := i + 1;
    }
  }

  /** The bound, living claim whose size and source a rebuilt claim keeps. */
  function Living(claims: seq<Claim>, key: Bytes): Option<Claim> {
    var c := FindClaim(claims, key);
    if c.Some? && c.value.bound && !c.value.terminating then c else None
  }

  function Body(s: Spec, claims: seq<Claim>, i: nat): ClaimBody {
    var key := PvcName(s.name, i);
    var source := SourceFor(s, claims, i);
    if source.Some? then ClaimBody(source.value.size, source.value.ref)
    else
      var living := Living(claims, key);
      ClaimBody(Storage.Request(s.template, Storage.Prior(s.scaled, key), if living.Some? then living.value.capacity else 0.0),
                if living.Some? then living.value.source else None)
  }

  /** `pvcDisabled`. */
  predicate Disabled(s: Spec, i: nat) {
    var n := InstanceName(s.name, i);
    n in s.overrides && s.overrides[n] == Some(BuildPods.DisableAll)
  }

  function PvcOf(s: Spec, claims: seq<Claim>, revisions: nat -> string, i: nat): Pvc {
    Resource(PvcName(s.name, i), revisions(i), i, Body(s, claims, i))
  }

  // ----- building

  ghost predicate Below(s: Spec, claims: seq<Claim>, revisions: nat -> string, n: nat, p: Pvc) {
    0 <= p.ordinal < n && !Disabled(s, p.ordinal) && p == PvcOf(s, claims, revisions, p.ordinal)
  }

  lemma OrderedSnoc(s: seq<Pvc>, p: Pvc)
    requires Ordered(s) && forall q :: q in s ==> q.ordinal < p.ordinal && q.key != p.key
    ensures Ordered(s + [p])
  {
  }

  /** Appending the next instance's claim to those below it. */
  lemma OneMoreClaim(s: Spec, claims: seq<Claim>, revisions: nat -> string, n: nat, pvcs: seq<Pvc>)
    requires Ordinal(n) && Ordered(pvcs) && forall p :: p in pvcs <==> Below(s, claims, revisions, n, p)
    ensures Ordered(pvcs + [PvcOf(s, claims, revisions, n)])
  {
    forall q | q in pvcs ensures q.ordinal < n && q.key != PvcName(s.name, n) {
      assert Below(s, claims, revisions, n, q);
      PvcNameInjective(s.name, q.ordinal, n);
    }
    OrderedSnoc(pvcs, PvcOf(s, claims, revisions, n));
  }

  /** `BuildPVCs`: one claim per enabled instance, under names that never repeat. */
  method BuildPVCs(s: Spec, claims: seq<Claim>, revisions: nat -> string) returns (pvcs: seq<Pvc>)
    requires Ordinal(s.replicas) || s.replicas < 0
    ensures Ordered(pvcs)
    ensures forall p :: p in pvcs <==>
      0 <= p.ordinal < s.replicas && !Disabled(s, p.ordinal) && p == PvcOf(s, claims, revisions, p.ordinal)
    ensures forall p :: p in pvcs ==> 0 <= p.ordinal && p.key == PvcName(s.name, p.ordinal)
  {
    pvcs := [];
    var sources := DataSources(s, claims);
    var i: nat := 0;
    while i < s.replicas
      invariant s.replicas >= 0 ==> i <= s.replicas
      invariant s.replicas < 0 ==> i == 0
      invariant Ordered(pvcs) && forall p :: p in pvcs <==> Below(s, claims, revisions, i, p)
    {
      if !Disabled(s, i) {
        OneMoreClaim(s, claims, revisions, i, pvcs);
        var body := BuildBody(s, claims, sources, i);
        pvcs := pvcs + [Resource(PvcName(s.name, i), revisions(i), i, body)];
      }
      i := i + 1;
    }
  }

  /** The content of one claim: the search for the existing claim, then `pvcResources`. */
  method BuildBody(s: Spec, claims: seq<Claim>, sources: map<nat, DataSource>, i: nat) returns (b: ClaimBody)
    requires i in sources <==> SourceFor(s, claims, i).Some?
    requires i in sources ==> SourceFor(s, claims, i) == Some(sources[i])
    ensures b == Body(s, claims, i)
  {
    var key := PvcName(s.name, i);
    var ref: Option<Ref> := None;
    var existing := 0.0;
    if i in sources {
      ref := sources[i].ref;
    } else {
      var c := FindClaim(claims, key);
      if c.Some? && !c.value.terminating && c.value.bound {
        existing := c.value.capacity;
        ref := c.value.source;
      }
    }
    var size := PvcResources(s.template, if i in sources then Some(sources[i]) else None, Storage.Prior(s.scaled, key), existing);
    b := ClaimBody(size, ref);
  }

  /** `pvcResources`. */
  method PvcResources(template: real, source: Option<DataSource>, requested: Option<real>, existing: real) returns (size: real)
    ensures size == if source.Some? then source.value.size else Storage.Request(template, requested, existing)
  {
    size := template;
    if source.Some? {
      size := source.value.size;
      return;
    }
    if requested.Some? {
      var withPadding := Storage.Padded(requested.value);
      if withPadding > size {
        size := withPadding;
      }
    }
    if existing > size {
      size := existing;
    }
  }

  /** What a claim is built with: a source found for it that is new, else what it has, and the template for a new one. */
  lemma BodyExactly(s: Spec, claims: seq<Claim>, i: nat)
    ensures var c, b := FindClaim(claims, PvcName(s.name, i)), Body(s, claims, i);
      && (c.None? && i in s.found ==> b == ClaimBody(s.found[i].size, s.found[i].ref))
      && (c.None? && i !in s.found ==> b == ClaimBody(s.template, None))
      && (c.Some? && i in s.found && s.found[i].ref != c.value.source ==> b == ClaimBody(s.found[i].size, s.found[i].ref))
      && (c.Some? && (i !in s.found || s.found[i].ref == c.value.source) ==>
            && b.source == (if c.value.bound && !c.value.terminating then c.value.source else None)
            && b.size >= s.template && (c.value.bound && !c.value.terminating ==> b.size >= c.value.capacity))
  {
  }

  /** The claim of every pod that is built is wanted; a claim is wanted without its pod's being enabled iff only the pod is disabled. */
  lemma PodsHaveClaims(f: BuildPods.FullNode, s: Spec, i: nat)
    requires f.name == s.name && f.replicas == s.replicas && f.overrides == s.overrides
    ensures BuildPods.Wanted(f, i) ==> i < s.replicas && !Disabled(s, i)
    ensures var n := InstanceName(s.name, i);
      !Disabled(s, i) && BuildPods.Disabled(f, i) <==> n in s.overrides && s.overrides[n] == Some(BuildPods.DisablePod)
  {
    var n := InstanceName(s.name, i);
    if n in s.overrides && s.overrides[n].Some? {
      assert s.overrides[n].value.DisablePod? || s.overrides[n].value.DisableAll?;
    }
  }

  /** A bound claim whose source did not change is rebuilt with that source and never smaller. */
  lemma RebuiltKeeps(s: Spec, claims: seq<Claim>, i: nat)
    requires SourceFor(s, claims, i).None?
    ensures FindClaim(claims, PvcName(s.name, i)).Some?
    ensures var c := FindClaim(claims, PvcName(s.name, i)).value;
      c.bound && !c.terminating ==> Body(s, claims, i).size >= c.capacity && Body(s, claims, i).source == c.source
  {
  }

  // ----- reconciling

  /** A listed pod of the fullnode. */
  datatype Pod = Pod(terminating: bool, mounts: seq<Bytes>)

  function AsResource(c: Claim): Pvc {
    Resource(c.key, c.revision, c.ordinal, ClaimBody(c.size, c.source))
  }

  function Current(claims: seq<Claim>): seq<Pvc> {
    seq(|claims|, i requires 0 <= i < |claims| => AsResource(claims[i]))
  }

  ghost predicate InUse(pods: seq<Pod>, key: Bytes) {
    exists i :: 0 <= i < |pods| && (pods[i].terminating || key in pods[i].mounts)
  }

  ghost predicate AllBound(claims: seq<Claim>) {
    forall c :: c in claims ==> c.bound
  }

  function Keys(pvcs: seq<Pvc>): seq<Bytes> {
    seq(|pvcs|, i requires 0 <= i < |pvcs| => pvcs[i].key)
  }

  /**
   * One reconcile: the requests sent, in this order, and the claims whose auto-scaling entry the fullnode will drop,
   * which are those created as well as those deleted.
   */
  datatype Outcome = Outcome(requeue: bool, failed: bool, creates: seq<Pvc>, deletes: seq<Pvc>, patches: seq<Pvc>,
                             cleaned: seq<Bytes>)

  /** The claims for which the API server answers a creation or a deletion with an error. */
  datatype Replies = Replies(createFails: set<Bytes>, deleteFails: set<Bytes>, patchFails: set<Bytes>)

  ghost predicate Broke(sent: seq<Pvc>, fails: set<Bytes>) {
    exists i :: 0 <= i < |sent| && sent[i].key in fails
  }

  method SendCreates(creates: seq<Pvc>, fails: set<Bytes>) returns (sent: seq<Pvc>, cleaned: seq<Bytes>, failed: bool)
    ensures sent <= creates && (failed <==> Broke(sent, fails)) && (!failed ==> sent == creates)
    ensures (failed ==> sent != []) && cleaned == Keys(if failed then sent[..|sent| - 1] else sent)
  {
    sent, cleaned, failed := [], [], false;
    for i := 0 to |creates|
      invariant sent == creates[..i] && cleaned == Keys(sent) && !Broke(sent, fails)
    {
      sent := sent + [creates[i]];
      if creates[i].key in fails {
        assert sent[..|sent| - 1] == creates[..i] && sent[|sent| - 1] == creates[i];
        return sent, cleaned, true;
      }
      cleaned := cleaned + [creates[i].key];
    }
  }

  /** The nested loops over pods and volumes that look for a user of a claim. */
  method PvcInUse(pods: seq<Pod>, key: Bytes) returns (inUse: bool)
    ensures inUse <==> InUse(pods, key)
  {
    inUse := false;
    for i := 0 to |pods|
      invariant !inUse && forall j :: 0 <= j < i ==> !pods[j].terminating && key !in pods[j].mounts
    {
      if pods[i].terminating {
        return true;
      }
      for v := 0 to |pods[i].mounts|
        invariant !inUse && key !in pods[i].mounts[..v]
      {
        if pods[i].mounts[v] == key {
          return true;
        }
      }
      assert pods[i].mounts[..|pods[i].mounts|] == pods[i].mounts;
    }
  }

  method SendDeletes(deletes: seq<Pvc>, pods: seq<Pod>, fails: set<Bytes>)
    returns (sent: seq<Pvc>, cleaned: seq<Bytes>, waiting: bool, failed: bool)
    ensures sent <= deletes && (failed <==> Broke(sent, fails)) && (!failed && !waiting ==> sent == deletes)
    ensures forall p :: p in sent ==> !InUse(pods, p.key)
    ensures waiting ==> !failed && |sent| < |deletes| && InUse(pods, deletes[|sent|].key)
    ensures (failed ==> sent != []) && cleaned == Keys(if failed then sent[..|sent| - 1] else sent)
  {
    sent, cleaned, waiting, failed := [], [], false, false;
    for i := 0 to |deletes|
      invariant sent == deletes[..i] && cleaned == Keys(sent) && !Broke(sent, fails)
      invariant forall p :: p in sent ==> !InUse(pods, p.key)
    {
      var inUse := PvcInUse(pods, deletes[i].key);
      if inUse {
        return sent, cleaned, true, false;
      }
      sent := sent + [deletes[i]];
      if deletes[i].key in fails {
        assert sent[..|sent| - 1] == deletes[..i] && sent[|sent| - 1] == deletes[i];
        return sent, cleaned, false, true;
      }
      cleaned := cleaned + [deletes[i].key];
    }
  }

  method SomeUnbound(claims: seq<Claim>) returns (unbound: bool)
    ensures unbound <==> !AllBound(claims)
  {
    for i := 0 to |claims|
      invariant forall c :: c in claims[..i] ==> c.bound
    {
      if !claims[i].bound {
        assert claims[i] in claims;
        return true;
      }
    }
    assert claims[..|claims|] == claims;
    return false;
  }

  /** Every patch is sent; one that fails is reported and passed over. */
  method SendPatches(updates: seq<Pvc>, fails: set<Bytes>) returns (sent: seq<Pvc>)
    ensures sent == updates
  {
    sent := [];
    for i := 0 to |updates|
      invariant sent == updates[..i]
    {
      sent := sent + [updates[i]];
      if updates[i].key in fails {
        continue;
      }
    }
  }

  /**
   * Creates come first, then deletes of unused claims, and patches only once there is nothing to create or delete. No
   * requeue and no error means that every patch was sent, not that it took effect.
   */
  ghost predicate Phased(out: Outcome, d: Diff<ClaimBody>, claims: seq<Claim>, pods: Option<seq<Pod>>, retain: bool) {
    && out.creates <= d.creates && out.deletes <= d.deletes
    && (out.deletes != [] ==> !retain && out.creates == d.creates && pods.Some?)
    && (forall p :: p in out.deletes ==> pods.Some? && !InUse(pods.value, p.key))
    && (out.patches != [] ==> d.creates == [] && (retain || d.deletes == []) && AllBound(claims) && out.patches == d.updates)
    && (!out.requeue && !out.failed ==> d.creates == [] && (retain || d.deletes == []) && out.patches == d.updates)
    && (!out.failed ==> out.cleaned == Keys(out.creates + out.deletes))
    && out.cleaned <= Keys(out.creates + out.deletes)
  }

  /**
   * And nothing is put off without a reason: all creations are sent unless one fails; all deletions unless Retain, a
   * failure or a claim in use stops them; all patches once neither is needed and every claim is bound. It fails only
   * because a call did and asks for another round only while something is left to do.
   */
  ghost predicate Prompt(out: Outcome, d: Diff<ClaimBody>, claims: seq<Claim>, pods: Option<seq<Pod>>, retain: bool, r: Replies) {
    && (out.creates == d.creates || Broke(out.creates, r.createFails))
    && (out.failed <==>
          Broke(out.creates, r.createFails) || (!retain && (pods.None? || Broke(out.deletes, r.deleteFails))))
    && (!out.failed && !retain && out.deletes != d.deletes ==>
          |out.deletes| < |d.deletes| && pods.Some? && InUse(pods.value, d.deletes[|out.deletes|].key))
    && (!out.failed ==>
          (out.requeue <==> d.creates != [] || (!retain && d.deletes != []) || (d.updates != [] && !AllBound(claims))))
    && out.patches == (if !out.failed && !out.requeue then d.updates else [])
  }

  /** `Reconcile` after listing; None is the uniqueness panic, and `pods` is None if listing the pods fails. */
  method Reconcile(s: Spec, claims: seq<Claim>, pods: Option<seq<Pod>>, retain: bool, revisions: nat -> string, r: Replies)
    returns (out: Option<Outcome>, ghost want: seq<Pvc>, ghost d: Diff<ClaimBody>)
    requires Ordinal(s.replicas) || s.replicas < 0
    ensures forall p :: p in want <==>
      0 <= p.ordinal < s.replicas && !Disabled(s, p.ordinal) && p == PvcOf(s, claims, revisions, p.ordinal)
    ensures out.Some? <==> UniqueKeys(Current(claims))
    ensures out.Some? ==> IsDiff(d, Current(claims), want) && Phased(out.value, d, claims, pods, retain)
    ensures out.Some? ==> Prompt(out.value, d, claims, pods, retain, r)
  {
    var built := BuildPVCs(s, claims, revisions);
    want := built;
    var diffed := New(Current(claims), built);
    if diffed.None? {
      d := Diff([], [], []);
      return None, want, d;
    }
    d := diffed.value;
    var o := Carry(diffed.value, claims, pods, retain, r);
    out := Some(o);
  }

  lemma KeysConcat(a: seq<Pvc>, b: seq<Pvc>)
    ensures Keys(a + b) == Keys(a) + Keys(b)
  {
  }

  /** The three phases. */
  method Carry(d: Diff<ClaimBody>, claims: seq<Claim>, pods: Option<seq<Pod>>, retain: bool, r: Replies) returns (out: Outcome)
    ensures Phased(out, d, claims, pods, retain) && Prompt(out, d, claims, pods, retain, r)
  {
    var creates, cleaned, failed := SendCreates(d.creates, r.createFails);
    KeysConcat(creates, []);
    if failed {
      assert creates + [] == creates;
      return Outcome(true, true, creates, [], [], cleaned);
    }
    var deletes: seq<Pvc> := [];
    var pending := 0;
    if !retain {
      if pods.None? {
        assert creates + [] == creates;
        return Outcome(false, true, creates, [], [], cleaned);
      }
      var more, waiting, err;
      deletes, more, waiting, err := SendDeletes(d.deletes, pods.value, r.deleteFails);
      KeysConcat(creates, deletes);
      cleaned := cleaned + more;
      if waiting || err {
        return Outcome(true, err, creates, deletes, [], cleaned);
      }
      pending := |d.deletes|;
    }
    out := Patch(d, claims, creates, deletes, cleaned, retain, pending, r.patchFails);
  }

  /** The last phase, once creations and deletions went through. */
  method Patch(d: Diff<ClaimBody>, claims: seq<Claim>, creates: seq<Pvc>, deletes: seq<Pvc>, cleaned: seq<Bytes>,
               retain: bool, pending: nat, fails: set<Bytes>)
    returns (out: Outcome)
    requires pending == if retain then 0 else |d.deletes|
    ensures out == Outcome(out.requeue, false, creates, deletes, if out.requeue then [] else d.updates, cleaned)
    ensures out.requeue <==> d.creates != [] || (!retain && d.deletes != []) || (d.updates != [] && !AllBound(claims))
  {
    if pending + |d.creates| > 0 {
      return Outcome(true, false, creates, deletes, [], cleaned);
    }
    if |d.updates| == 0 {
      return Outcome(false, false, creates, deletes, [], cleaned);
    }
    var unbound := SomeUnbound(claims);
    if unbound {
      return Outcome(true, false, creates, deletes, [], cleaned);
    }
    var patches := SendPatches(d.updates, fails);
    out := Outcome(false, false, creates, deletes, patches, cleaned);
  }
}
