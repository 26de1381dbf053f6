/**
 * `BuildPods` (internal/fullnode/build_pods.go): which instances get a pod, under which names. A pod's content, apart
 * from its PVC, is its revision, an abstract value.
 */
module BuildPods {
  import opened Common
  import opened Names
  import opened Diff
  import SnapshotProtocol

  /** `DisableStrategy`, None where an instance override sets none. */
  datatype Disable = DisablePod | DisableAll

  /** What of a CosmosFullNode decides which pods exist; a negative replica count builds nothing. */
  datatype FullNode = FullNode(name: Bytes, replicas: int, overrides: map<Bytes, Option<Disable>>, holds: map<Bytes, Bytes>)

  predicate Disabled(f: FullNode, i: nat) {
    var n := InstanceName(f.name, i);
    n in f.overrides && f.overrides[n].Some?
  }

  predicate Held(f: FullNode, i: nat) {
    InstanceName(f.name, i) in f.holds.Values
  }

  ghost predicate Wanted(f: FullNode, i: nat) {
    i < f.replicas && !Disabled(f, i) && !Held(f, i)
  }

  /** The pod of one instance, mounting the PVC of the same ordinal. */
  function PodOf(f: FullNode, i: nat, revisions: nat -> string): Resource<Bytes> {
    Resource(InstanceName(f.name, i), revisions(i), i, PvcName(f.name, i))
  }

  /** `podCandidates`. */
  method PodCandidates(f: FullNode) returns (candidates: set<Bytes>)
    ensures candidates == f.holds.Values
  {
    candidates := {};
    var todo := f.holds.Keys;
    while todo != {}
      invariant todo <= f.holds.Keys
      invariant forall n :: n in candidates <==> exists k :: k in f.holds && k !in todo && f.holds[k] == n
    {
      var k :| k in todo;
      candidates := candidates + {f.holds[k]};
      todo := todo - {k};
    }
  }

  /** The pods built for the instances below `n`, in ordinal order. */
  function PodsBelow(f: FullNode, n: nat, revisions: nat -> string): seq<Resource<Bytes>> {
    if n == 0 then []
    else
      PodsBelow(f, n - 1, revisions) +
      if Disabled(f, n - 1) || Held(f, n - 1) then [] else [PodOf(f, n - 1, revisions)]
  }

  /** A pod of the list below `n`. */
  ghost predicate Below(f: FullNode, n: nat, revisions: nat -> string, p: Resource<Bytes>) {
    0 <= p.ordinal < n && !Disabled(f, p.ordinal) && !Held(f, p.ordinal) && p == PodOf(f, p.ordinal, revisions)
  }

  lemma {:induction false} PodsBelowMember(f: FullNode, n: nat, revisions: nat -> string, p: Resource<Bytes>)
    ensures p in PodsBelow(f, n, revisions) <==> Below(f, n, revisions, p)
  {
    if n > 0 {
      PodsBelowMember(f, n - 1, revisions, p);
    }
  }

  lemma PodsBelowMembers(f: FullNode, n: nat, revisions: nat -> string)
    ensures forall p :: p in PodsBelow(f, n, revisions) <==> Below(f, n, revisions, p)
  {
    forall p ensures p in PodsBelow(f, n, revisions) <==> Below(f, n, revisions, p) {
      PodsBelowMember(f, n, revisions, p);
    }
  }

  /** No two of them share a name: names are injective in the ordinal. */
  lemma {:induction false} PodsBelowOrdered(f: FullNode, n: nat, revisions: nat -> string)
    requires Ordinal(n)
    ensures Ordered(PodsBelow(f, n, revisions))
  {
    if n > 0 {
      var before := PodsBelow(f, n - 1, revisions);
      PodsBelowOrdered(f, n - 1, revisions);
      PodsBelowMembers(f, n - 1, revisions);
      forall q | q in before ensures q.ordinal < n - 1 && q.key != InstanceName(f.name, n - 1) {
        assert Below(f, n - 1, revisions, q);
        InstanceNameInjective(f.name, q.ordinal, n - 1);
      }
      OrderedSnoc(before, PodOf(f, n - 1, revisions));
    }
  }

  lemma OrderedSnoc(s: seq<Resource<Bytes>>, p: Resource<Bytes>)
    requires Ordered(s) && forall q :: q in s ==> q.ordinal < p.ordinal && q.key != p.key
    ensures Ordered(s + [p])
  {
  }

  /** Every instance below `n` is disabled. */
  predicate AllDisabled(f: FullNode, n: nat) {
    n == 0 || (AllDisabled(f, n - 1) && Disabled(f, n - 1))
  }

  lemma {:induction false} AllDisabledMeans(f: FullNode, n: nat, i: nat)
    requires i < n
    ensures AllDisabled(f, n) ==> Disabled(f, i)
  {
    if i < n - 1 {
      AllDisabledMeans(f, n - 1, i);
    }
  }

  /** A pod of the finished list. */
  ghost predicate Belongs(f: FullNode, revisions: nat -> string, p: Resource<Bytes>) {
    0 <= p.ordinal && Wanted(f, p.ordinal) && p == PodOf(f, p.ordinal, revisions)
  }

  lemma BuiltExactly(f: FullNode, n: nat, revisions: nat -> string)
    requires Ordinal(n) && n == Max(0, f.replicas)
    ensures Ordered(PodsBelow(f, n, revisions))
    ensures forall p :: p in PodsBelow(f, n, revisions) <==> Belongs(f, revisions, p)
  {
    PodsBelowOrdered(f, n, revisions);
    PodsBelowMembers(f, n, revisions);
  }

  /**
   * `BuildPods`; None is the error of a template that cannot be merged, which only an instance that is built meets.
   * The keys never repeat, so `diff.New` does not panic on the result, and every key names its own ordinal.
   */
  method BuildPods(f: FullNode, mergeable: bool, revisions: nat -> string) returns (pods: Option<seq<Resource<Bytes>>>)
    requires Ordinal(f.replicas) || f.replicas < 0
    ensures pods.None? <==> !mergeable && !AllDisabled(f, Max(0, f.replicas))
    ensures pods.Some? ==> Ordered(pods.value)
    ensures pods.Some? ==> forall p :: p in pods.value <==> Belongs(f, revisions, p)
    ensures pods.Some? ==> forall p :: p in pods.value ==> 0 <= p.ordinal && p.key == InstanceName(f.name, p.ordinal) && p.body == PvcName(f.name, p.ordinal)
  {
    var built := [];
    var candidates := PodCandidates(f);
    var i := 0;
    while i < f.replicas
      invariant 0 <= i && (f.replicas >= 0 ==> i <= f.replicas) && (f.replicas < 0 ==> i == 0)
      invariant built == PodsBelow(f, i, revisions)
      invariant !mergeable ==> AllDisabled(f, i)
    {
      if !Disabled(f, i) {
        if !mergeable {
          AllDisabledMeans(f, Max(0, f.replicas), i);
          return None;
        }
        var pod := PodOf(f, i, revisions);
        if pod.key !in candidates {
          built := built + [pod];
        }
      }
      i := i + 1;
    }
    BuiltExactly(f, i, revisions);
    pods := Some(built);
  }

  /** The pods built are those the snapshot protocol lets the fullnode controller create. */
  lemma BuildsWhatTheProtocolAllows(f: FullNode, w: SnapshotProtocol.World, i: nat)
    requires w.crd == f.name && w.replicas == f.replicas && w.holds == f.holds
    requires forall j: nat :: j in w.disabled <==> Disabled(f, j)
    ensures Wanted(f, i) <==> SnapshotProtocol.WantsPod(w, i)
  {
  }
}
