/**
 * The cached CometBFT statuses: internal/cosmos/status_collection.go, `Collect` of
 * internal/cosmos/cache_controller.go and `SyncInfoStatus` of internal/fullnode/status.go.
 *
 * A Go slice is a backing array and a length; IntersectPods and UpsertPod write into the backing array they are
 * handed, which `Collect` shares with the cache.
 */
module StatusCache {
  import opened Common
  import opened Diff
  import opened PodControl
  import opened RollingUpdate

  datatype Comet = Comet(height: nat, catchingUp: bool)

  datatype Item = Item(pod: Pod, status: Comet, err: Option<string>)

  const MISSING := "missing status"

  predicate Lists(pods: seq<Pod>, uid: string) {
    exists i :: 0 <= i < |pods| && pods[i].body.uid == uid
  }

  predicate Holds(coll: seq<Item>, uid: string) {
    exists i :: 0 <= i < |coll| && coll[i].pod.body.uid == uid
  }

  predicate DistinctUids(coll: seq<Item>) {
    forall i, j :: 0 <= i < j < |coll| ==> coll[i].pod.body.uid != coll[j].pod.body.uid
  }

  predicate DistinctPods(pods: seq<Pod>) {
    forall i, j :: 0 <= i < j < |pods| ==> pods[i].body.uid != pods[j].body.uid
  }

  // ----- what the slice operations compute

  function Kept(coll: seq<Item>, pods: seq<Pod>): seq<Item> {
    if coll == [] then []
    else
      var last := coll[|coll| - 1];
      var rest := Kept(coll[..|coll| - 1], pods);
      if Lists(pods, last.pod.body.uid) then rest + [last] else rest
  }

  /** The first item of that UID gets the new pod; without one, an errored item is appended. */
  function Upsert(coll: seq<Item>, pod: Pod): seq<Item> {
    if coll == [] then [Item(pod, Comet(0, false), Some(MISSING))]
    else if coll[0].pod.body.uid == pod.body.uid then [coll[0].(pod := pod)] + coll[1..]
    else [coll[0]] + Upsert(coll[1..], pod)
  }

  function UpsertAll(coll: seq<Item>, pods: seq<Pod>): seq<Item> {
    if pods == [] then coll
    else Upsert(UpsertAll(coll, pods[..|pods| - 1]), pods[|pods| - 1])
  }

  function Collected(coll: seq<Item>, pods: seq<Pod>): seq<Item> {
    UpsertAll(Kept(coll, pods), pods)
  }

  // ----- the in-place operations

  /** `IntersectPods`: compacts the kept items to the front; the rest of the backing array stays as it was. */
  method IntersectPods(buf: array<Item>, len: nat, pods: seq<Pod>) returns (j: nat)
    requires len <= buf.Length
    modifies buf
    ensures j <= len && buf[..j] == Kept(old(buf[..len]), pods)
    ensures buf[j..] == old(buf[j..])
  {
    ghost var was := buf[..];
    j := 0;
    for i := 0 to len
      invariant j <= i
      invariant buf[..j] == Kept(was[..i], pods)
      invariant forall k :: j <= k < buf.Length ==> buf[k] == was[k]
    {
      var item := buf[i];
      assert was[..i + 1][..i] == was[..i];
      if Lists(pods, item.pod.body.uid) {
        buf[j] := item;
        j := j + 1;
      }
    }
    assert was[..len] == old(buf[..len]);
  }

  lemma {:induction false} UpsertAt(coll: seq<Item>, pod: Pod, i: nat)
    requires i <= |coll| && forall k :: 0 <= k < i ==> coll[k].pod.body.uid != pod.body.uid
    ensures i == |coll| ==> Upsert(coll, pod) == coll + [Item(pod, Comet(0, false), Some(MISSING))]
    ensures i < |coll| && coll[i].pod.body.uid == pod.body.uid ==> Upsert(coll, pod) == coll[i := coll[i].(pod := pod)]
  {
    if coll != [] && i > 0 {
      UpsertAt(coll[1..], pod, i - 1);
      assert coll == [coll[0]] + coll[1..];
    }
  }

  /** `UpsertPod`: in place while the slice has room, otherwise in a larger copy that leaves the array alone. */
  method UpsertPod(buf: array<Item>, len: nat, pod: Pod) returns (out: array<Item>, n: nat)
    requires len <= buf.Length
    modifies buf
    ensures out == buf || fresh(out)
    ensures len <= n <= len + 1 && n <= out.Length && out[..n] == Upsert(old(buf[..len]), pod)
    ensures out == buf <==> n <= buf.Length
    ensures buf[..] == if n <= buf.Length then out[..n] + old(buf[..])[n..] else old(buf[..])
  {
    ghost var was := buf[..len];
    for i := 0 to len
      invariant buf[..len] == was
      invariant forall k :: 0 <= k < i ==> was[k].pod.body.uid != pod.body.uid
    {
      if buf[i].pod.body.uid == pod.body.uid {
        UpsertAt(was, pod, i);
        var item := buf[i];
        buf[i] := item.(pod := pod);
        return buf, len;
      }
    }
    UpsertAt(was, pod, len);
    var missing := Item(pod, Comet(0, false), Some(MISSING));
    if len < buf.Length {
      out := buf;
    } else {
      var copy := buf[..len];
      out := new Item[2 * len + 1](k => if 0 <= k < len then copy[k] else missing);
    }
    out[len] := missing;
    n := len + 1;
    assert out[..len] == was;
  }

  /** How many of the listed pods are upserted before the array is full and the slice moves to a copy. */
  function InPlace(kept: seq<Item>, room: nat, pods: seq<Pod>): (m: nat)
    requires |kept| <= room
    ensures m <= |pods| && |UpsertAll(kept, pods[..m])| <= room
  {
    if pods == [] then 0
    else
      var front := pods[..|pods| - 1];
      var m := InPlace(kept, room, front);
      assert pods[..m] == front[..m] && pods[..|pods|] == pods;
      if m == |front| && |UpsertAll(kept, pods)| <= room then |pods| else m
  }

  /** The whole backing array after `Collect`: what was upserted in place, then what was there before. */
  function Shared(buf: seq<Item>, len: nat, pods: seq<Pod>): (r: seq<Item>)
    requires len <= |buf|
    ensures |r| == |buf|
  {
    KeptSize(buf[..len], pods);
    var kept := Kept(buf[..len], pods);
    var items := UpsertAll(kept, pods[..InPlace(kept, |buf|, pods)]);
    items + buf[|items|..]
  }

  /** `Collect`: the cached slice, narrowed to the listed pods and completed with the ones it lacks. */
  method Collect(cached: array<Item>, len: nat, pods: seq<Pod>) returns (out: array<Item>, n: nat)
    requires len <= cached.Length
    modifies cached
    ensures n <= out.Length && out[..n] == Collected(old(cached[..len]), pods)
    ensures cached[..] == Shared(old(cached[..]), len, pods)
  {
    ghost var was := cached[..];
    var j := IntersectPods(cached, len, pods);
    ghost var kept := Kept(was[..len], pods);
    assert Overlaid(cached[..], kept, was);
    out, n := UpsertListed(cached, j, pods);
    ghost var m := InPlace(kept, |was|, pods);
    UpsertAllSize(kept, pods[..m], m);
    PutOver(kept, was, UpsertAll(kept, pods[..m]), cached[..]);
  }

  /** The loop of `Collect` over the listed pods. */
  method UpsertListed(buf: array<Item>, len: nat, pods: seq<Pod>) returns (out: array<Item>, n: nat)
    requires len <= buf.Length
    modifies buf
    ensures out == buf || fresh(out)
    ensures n <= out.Length && out[..n] == UpsertAll(old(buf[..len]), pods)
    ensures var kept := old(buf[..len]);
      Overlaid(buf[..], UpsertAll(kept, pods[..InPlace(kept, buf.Length, pods)]), old(buf[..]))
  {
    ghost var was, kept := buf[..], buf[..len];
    out, n := buf, len;
    ghost var m, items := 0, kept;
    for i := 0 to |pods|
      invariant out == buf || fresh(out)
      invariant n <= out.Length && Upserted(kept, |was|, pods, i, out[..n], m, items)
      invariant (out == buf <==> m == i) && (out == buf ==> out[..n] == items) && Overlaid(buf[..], items, was)
    {
      ghost var before := out[..n];
      ghost var more;
      out, n, more := UpsertShared(buf, out, n, pods[i], items, was);
      UpsertedOneMore(kept, |was|, pods, i, before, m, items);
      m, items := if out == buf then i + 1 else m, more;
    }
    assert pods[..|pods|] == pods;
  }

  /** After the first `i` pods the slice holds `now`, and `items` are what the first `m` of them left in the array. */
  ghost predicate Upserted(kept: seq<Item>, room: nat, pods: seq<Pod>, i: nat, now: seq<Item>, m: nat, items: seq<Item>) {
    && |kept| <= room && m <= i <= |pods| && now == UpsertAll(kept, pods[..i])
    && m == InPlace(kept, room, pods[..i]) && items == UpsertAll(kept, pods[..m])
  }

  lemma UpsertedOneMore(kept: seq<Item>, room: nat, pods: seq<Pod>, i: nat, now: seq<Item>, m: nat, items: seq<Item>)
    requires Upserted(kept, room, pods, i, now, m, items) && i < |pods|
    ensures var next := Upsert(now, pods[i]);
      if m == i && |next| <= room then Upserted(kept, room, pods, i + 1, next, i + 1, next)
      else Upserted(kept, room, pods, i + 1, next, m, items)
  {
    assert pods[..i + 1][..i] == pods[..i];
  }

  /** An array whose front was overwritten by `items`. */
  ghost predicate Overlaid(now: seq<Item>, items: seq<Item>, was: seq<Item>) {
    |items| <= |was| && now == items + was[|items|..]
  }

  /** One `UpsertPod`, on the cache's own array or on a copy; `more` is what the array's front then holds. */
  method UpsertShared(cached: array<Item>, slice: array<Item>, len: nat, pod: Pod, ghost items: seq<Item>, ghost was: seq<Item>)
    returns (out: array<Item>, n: nat, ghost more: seq<Item>)
    requires len <= slice.Length && Overlaid(cached[..], items, was) && (slice == cached ==> slice[..len] == items)
    modifies slice
    ensures out == slice || fresh(out)
    ensures n <= out.Length && out[..n] == Upsert(old(slice[..len]), pod)
    ensures out == cached <==> slice == cached && n <= |was|
    ensures more == (if out == cached then out[..n] else items) && Overlaid(cached[..], more, was)
  {
    out, n := UpsertPod(slice, len, pod);
    more := items;
    if out == cached {
      more := cached[..n];
      PutOver(items, was, more, cached[..]);
    }
  }

  /** Overwriting the front of an array whose own front was overwritten before. */
  lemma PutOver(items: seq<Item>, was: seq<Item>, more: seq<Item>, now: seq<Item>)
    requires |items| <= |more| <= |was| && now == more + (items + was[|items|..])[|more|..]
    ensures now == more + was[|more|..]
  {
  }

  lemma {:induction false} KeptSize(coll: seq<Item>, pods: seq<Pod>)
    ensures |Kept(coll, pods)| <= |coll|
  {
    if coll != [] {
      KeptSize(coll[..|coll| - 1], pods);
    }
  }

  // ----- one item per listed pod, with the right status

  lemma {:induction false} KeptItems(coll: seq<Item>, pods: seq<Pod>)
    requires DistinctUids(coll)
    ensures DistinctUids(Kept(coll, pods))
    ensures forall x :: x in Kept(coll, pods) <==> x in coll && Lists(pods, x.pod.body.uid)
  {
    if coll != [] {
      var front, last := coll[..|coll| - 1], coll[|coll| - 1];
      KeptItems(front, pods);
      assert coll == front + [last];
      assert forall x :: x in front ==> x.pod.body.uid != last.pod.body.uid;
      assert forall k :: 0 <= k < |Kept(front, pods)| ==> Kept(front, pods)[k] in front;
    }
  }

  lemma UpsertItems(coll: seq<Item>, pod: Pod)
    requires DistinctUids(coll)
    ensures DistinctUids(Upsert(coll, pod))
    ensures forall x :: x in Upsert(coll, pod) && x.pod.body.uid != pod.body.uid <==> x in coll && x.pod.body.uid != pod.body.uid
    ensures forall x :: x in coll && x.pod.body.uid == pod.body.uid ==> x.(pod := pod) in Upsert(coll, pod)
    ensures !Holds(coll, pod.body.uid) ==> Item(pod, Comet(0, false), Some(MISSING)) in Upsert(coll, pod)
    ensures Holds(Upsert(coll, pod), pod.body.uid)
  {
    var missing := Item(pod, Comet(0, false), Some(MISSING));
    var r := Upsert(coll, pod);
    if Holds(coll, pod.body.uid) {
      var i :| 0 <= i < |coll| && coll[i].pod.body.uid == pod.body.uid;
      UpsertAt(coll, pod, i);
      assert r[i] == coll[i].(pod := pod);
      assert forall k :: 0 <= k < |r| && k != i ==> r[k] == coll[k];
    } else {
      UpsertAt(coll, pod, |coll|);
      assert r[|coll|] == missing;
      assert forall k :: 0 <= k < |coll| ==> r[k] == coll[k];
    }
  }

  /** The item a collection holds for a listed pod, given what the cache held. */
  ghost predicate Fresh(coll: seq<Item>, x: Item) {
    || (exists c :: c in coll && x == c.(pod := x.pod) && c.pod.body.uid == x.pod.body.uid)
    || (!Holds(coll, x.pod.body.uid) && x.err == Some(MISSING))
  }

  /** Upserting leaves the items of other UIDs alone and never makes a second item for one UID. */
  lemma {:induction false} UpsertAllOthers(coll: seq<Item>, pods: seq<Pod>)
    requires DistinctUids(coll)
    ensures DistinctUids(UpsertAll(coll, pods))
    ensures forall x :: x in UpsertAll(coll, pods) && !Lists(pods, x.pod.body.uid) <==> x in coll && !Lists(pods, x.pod.body.uid)
  {
    if pods != [] {
      var front, last := pods[..|pods| - 1], pods[|pods| - 1];
      UpsertAllOthers(coll, front);
      UpsertItems(UpsertAll(coll, front), last);
      forall x: Item ensures Lists(pods, x.pod.body.uid) <==> Lists(front, x.pod.body.uid) || last.body.uid == x.pod.body.uid {
        ListsSnoc(pods, x.pod.body.uid);
      }
    }
  }

  lemma {:induction false} UpsertAllFresh(coll: seq<Item>, pods: seq<Pod>, i: nat)
    requires DistinctUids(coll) && DistinctPods(pods) && i < |pods|
    ensures exists x :: x in UpsertAll(coll, pods) && x.pod == pods[i] && Fresh(coll, x)
  {
    var front, last := pods[..|pods| - 1], pods[|pods| - 1];
    UpsertAllOthers(coll, front);
    if i < |front| {
      UpsertAllFresh(coll, front, i);
      UpsertItems(UpsertAll(coll, front), last);
    } else {
      assert !Lists(front, last.body.uid);
      LastIsFresh(coll, UpsertAll(coll, front), last);
    }
  }

  lemma ListsSnoc(pods: seq<Pod>, uid: string)
    requires pods != []
    ensures Lists(pods, uid) <==> Lists(pods[..|pods| - 1], uid) || pods[|pods| - 1].body.uid == uid
  {
  }

  lemma LastIsFresh(coll: seq<Item>, before: seq<Item>, pod: Pod)
    requires DistinctUids(before)
    requires forall x: Item :: x.pod.body.uid == pod.body.uid ==> (x in before <==> x in coll)
    ensures exists x :: x in Upsert(before, pod) && x.pod == pod && Fresh(coll, x)
  {
    UpsertItems(before, pod);
    if Holds(before, pod.body.uid) {
      var i :| 0 <= i < |before| && before[i].pod.body.uid == pod.body.uid;
      var c := before[i];
      assert c in coll;
      assert c.(pod := pod) in Upsert(before, pod);
      assert Fresh(coll, c.(pod := pod));
    } else {
      var x := Item(pod, Comet(0, false), Some(MISSING));
      assert x in Upsert(before, pod);
      assert forall c :: c in coll ==> c.pod.body.uid != pod.body.uid;
      assert Fresh(coll, x);
    }
  }

  /** `Collect` on a cache without duplicates: one item per listed pod, newcomers errored, survivors as polled. */
  lemma CollectedExactly(coll: seq<Item>, pods: seq<Pod>)
    requires DistinctUids(coll) && DistinctPods(pods)
    ensures DistinctUids(Collected(coll, pods))
    ensures forall x :: x in Collected(coll, pods) ==> x.pod in pods && Fresh(coll, x)
    ensures forall p :: p in pods ==> exists x :: x in Collected(coll, pods) && x.pod == p
  {
    var kept, r := Kept(coll, pods), Collected(coll, pods);
    KeptItems(coll, pods);
    UpsertAllOthers(kept, pods);
    forall i | 0 <= i < |pods| ensures exists x :: x in r && x.pod == pods[i] && Fresh(kept, x) {
      UpsertAllFresh(kept, pods, i);
    }
    forall x | x in r ensures x.pod in pods && Fresh(coll, x) {
      assert Lists(pods, x.pod.body.uid);
      var i :| 0 <= i < |pods| && pods[i].body.uid == x.pod.body.uid;
      var y :| y in r && y.pod == pods[i] && Fresh(kept, y);
      assert x == y;
      KeptFresh(coll, pods, x);
    }
  }

  lemma KeptFresh(coll: seq<Item>, pods: seq<Pod>, x: Item)
    requires DistinctUids(coll) && Lists(pods, x.pod.body.uid) && Fresh(Kept(coll, pods), x)
    ensures Fresh(coll, x)
  {
    KeptItems(coll, pods);
    var kept := Kept(coll, pods);
    if !Holds(kept, x.pod.body.uid) {
      assert forall c :: c in coll && c.pod.body.uid == x.pod.body.uid ==> c in kept;
      assert forall i :: 0 <= i < |coll| ==> coll[i] in coll;
      assert forall k :: k in kept ==> k.pod.body.uid != x.pod.body.uid;
      assert !Holds(coll, x.pod.body.uid);
    }
  }

  // ----- the shared backing array

  /** What the cache's own slice shows after `Collect`. */
  function CacheView(buf: seq<Item>, len: nat, pods: seq<Pod>): seq<Item>
    requires len <= |buf|
  {
    Shared(buf, len, pods)[..len]
  }

  lemma {:induction false} DistinctCount(s: seq<string>)
    requires forall i, j :: 0 <= i < j < |s| ==> s[i] != s[j]
    ensures |set x | x in s| == |s|
  {
    if s != [] {
      var front, last := s[..|s| - 1], s[|s| - 1];
      DistinctCount(front);
      assert s == front + [last];
      assert (set x | x in s) == (set x | x in front) + {last};
    }
  }

  lemma CollectedHolds(coll: seq<Item>, pods: seq<Pod>, uid: string)
    requires DistinctUids(coll) && DistinctPods(pods)
    ensures Holds(Collected(coll, pods), uid) <==> Lists(pods, uid)
  {
    CollectedExactly(coll, pods);
    var r := Collected(coll, pods);
    if Lists(pods, uid) {
      var i :| 0 <= i < |pods| && pods[i].body.uid == uid;
      assert pods[i] in pods;
      var x :| x in r && x.pod == pods[i];
    }
    if Holds(r, uid) {
      var i :| 0 <= i < |r| && r[i].pod.body.uid == uid;
      assert r[i] in r;
    }
  }

  /** A collection of one item per listed pod has as many items as there are pods. */
  lemma CollectedSize(coll: seq<Item>, pods: seq<Pod>)
    requires DistinctUids(coll) && DistinctPods(pods)
    ensures |Collected(coll, pods)| == |pods|
  {
    var r := Collected(coll, pods);
    CollectedExactly(coll, pods);
    var a := seq(|r|, i requires 0 <= i < |r| => r[i].pod.body.uid);
    var b := seq(|pods|, i requires 0 <= i < |pods| => pods[i].body.uid);
    DistinctCount(a);
    DistinctCount(b);
    forall u ensures u in a <==> u in b {
      CollectedHolds(coll, pods, u);
      assert u in a <==> Holds(r, u) by {
        assert forall i :: 0 <= i < |r| ==> a[i] == r[i].pod.body.uid;
      }
      assert u in b <==> Lists(pods, u) by {
        assert forall i :: 0 <= i < |pods| ==> b[i] == pods[i].body.uid;
      }
    }
    assert (set x | x in a) == (set x | x in b);
  }

  lemma UpsertSize(coll: seq<Item>, pod: Pod)
    ensures |coll| <= |Upsert(coll, pod)| <= |coll| + 1
  {
  }

  lemma {:induction false} UpsertAllSize(coll: seq<Item>, pods: seq<Pod>, m: nat)
    requires m <= |pods|
    ensures |coll| <= |UpsertAll(coll, pods[..m])| <= |UpsertAll(coll, pods)|
  {
    if m == |pods| {
      assert pods[..m] == pods;
      if m > 0 {
        UpsertAllSize(coll, pods[..m - 1], m - 1);
        UpsertSize(UpsertAll(coll, pods[..m - 1]), pods[m - 1]);
        assert pods[..m - 1][..m - 1] == pods[..m - 1];
      }
    } else {
      var front := pods[..|pods| - 1];
      UpsertAllSize(coll, front, m);
      UpsertSize(UpsertAll(coll, front), pods[|pods| - 1]);
      assert front[..m] == pods[..m];
    }
  }

  /** If the slice had to move to a copy, the array was full. */
  lemma {:induction false} MovedWhenFull(kept: seq<Item>, room: nat, pods: seq<Pod>)
    requires |kept| <= room
    ensures var m := InPlace(kept, room, pods);
      m < |pods| ==> |UpsertAll(kept, pods[..m])| == room < |UpsertAll(kept, pods)|
  {
    if pods != [] {
      var front, last := pods[..|pods| - 1], pods[|pods| - 1];
      MovedWhenFull(kept, room, front);
      var m := InPlace(kept, room, front);
      assert front[..m] == pods[..m] && front[..|front|] == front;
      UpsertSize(UpsertAll(kept, front), last);
    }
  }

  /** The first items of the cache's slice are collected ones, one per UID; behind them come the old ones. */
  lemma CacheViewShape(buf: seq<Item>, len: nat, pods: seq<Pod>) returns (items: seq<Item>)
    requires len <= |buf| && DistinctUids(buf[..len]) && DistinctPods(pods)
    ensures DistinctUids(items) && |items| <= |buf| && Shared(buf, len, pods) == items + buf[|items|..]
    ensures |pods| < len ==> items == Collected(buf[..len], pods) && |items| == |pods|
    ensures |pods| >= len ==> |items| >= len
  {
    var coll := buf[..len];
    KeptSize(coll, pods);
    var kept := Kept(coll, pods);
    var m := InPlace(kept, |buf|, pods);
    items := UpsertAll(kept, pods[..m]);
    KeptItems(coll, pods);
    UpsertAllOthers(kept, pods[..m]);
    CollectedSize(coll, pods);
    MovedWhenFull(kept, |buf|, pods);
    assert pods[..|pods|] == pods;
  }

  /** A cached item past as many as there are listed pods, whose pod is listed. */
  ghost predicate ListedBehind(coll: seq<Item>, pods: seq<Pod>) {
    exists i :: |pods| <= i < |coll| && Lists(pods, coll[i].pod.body.uid)
  }

  lemma TailDistinct(a: seq<Item>, b: seq<Item>)
    requires DistinctUids(a) && DistinctUids(b)
    ensures DistinctUids(a + b) <==> forall i :: 0 <= i < |b| ==> !Holds(a, b[i].pod.body.uid)
  {
    var r := a + b;
    if DistinctUids(r) {
      forall i | 0 <= i < |b| ensures !Holds(a, b[i].pod.body.uid) {
        assert r[|a| + i] == b[i];
        assert forall k :: 0 <= k < |a| ==> r[k] == a[k];
      }
    }
  }

  /**
   * After `Collect` the cache still shows one item per UID exactly if no cached item past the number of listed pods
   * is itself listed, which the caller can tell beforehand.
   */
  lemma CacheStaysDistinct(buf: seq<Item>, len: nat, pods: seq<Pod>)
    requires len <= |buf| && DistinctUids(buf[..len]) && DistinctPods(pods)
    ensures DistinctUids(CacheView(buf, len, pods)) <==> !ListedBehind(buf[..len], pods)
  {
    var coll, view := buf[..len], CacheView(buf, len, pods);
    var items := CacheViewShape(buf, len, pods);
    if |pods| < len {
      assert view == items + coll[|pods|..];
      TailDistinct(items, coll[|pods|..]);
      forall i | |pods| <= i < len ensures Holds(items, coll[i].pod.body.uid) <==> Lists(pods, coll[i].pod.body.uid) {
        CollectedHolds(coll, pods, coll[i].pod.body.uid);
      }
      assert forall i :: |pods| <= i < len ==> coll[i] == coll[|pods|..][i - |pods|];
    } else {
      assert view == items[..len];
    }
  }

  lemma {:induction false} KeptConcat(a: seq<Item>, b: seq<Item>, pods: seq<Pod>)
    ensures Kept(a + b, pods) == Kept(a, pods) + Kept(b, pods)
  {
    if b == [] {
      assert a + b == a;
    } else {
      KeptConcat(a, b[..|b| - 1], pods);
      assert (a + b)[..|a + b| - 1] == a + b[..|b| - 1];
    }
  }

  lemma {:induction false} KeptCounts(coll: seq<Item>, pods: seq<Pod>)
    ensures (forall i :: 0 <= i < |coll| ==> Lists(pods, coll[i].pod.body.uid)) ==> |Kept(coll, pods)| == |coll|
    ensures (exists i :: 0 <= i < |coll| && Lists(pods, coll[i].pod.body.uid)) ==> Kept(coll, pods) != []
  {
    if coll != [] {
      KeptCounts(coll[..|coll| - 1], pods);
    }
  }

  /** The next `Collect` of the same pods counts each of them once exactly under the same condition. */
  lemma SecondCollectExactly(buf: seq<Item>, len: nat, pods: seq<Pod>)
    requires len <= |buf| && DistinctUids(buf[..len]) && DistinctPods(pods)
    ensures |Collected(CacheView(buf, len, pods), pods)| == |pods| <==> !ListedBehind(buf[..len], pods)
  {
    var coll, view := buf[..len], CacheView(buf, len, pods);
    CacheStaysDistinct(buf, len, pods);
    if DistinctUids(view) {
      CollectedSize(view, pods);
    } else {
      var items := CacheViewShape(buf, len, pods);
      var tail := coll[|pods|..];
      assert view == items + tail;
      forall i | 0 <= i < |items| ensures Lists(pods, items[i].pod.body.uid) {
        CollectedHolds(coll, pods, items[i].pod.body.uid);
      }
      assert exists i :: 0 <= i < |tail| && Lists(pods, tail[i].pod.body.uid) by {
        var i :| |pods| <= i < |coll| && Lists(pods, coll[i].pod.body.uid);
        assert tail[i - |pods|] == coll[i];
      }
      KeptConcat(items, tail, pods);
      KeptCounts(items, pods);
      KeptCounts(tail, pods);
      UpsertAllSize(Kept(view, pods), pods, 0);
    }
  }

  lemma KeptTwo(x: Item, y: Item, pods: seq<Pod>)
    requires Lists(pods, y.pod.body.uid)
    ensures Kept([x, y], pods) == if Lists(pods, x.pod.body.uid) then [x, y] else [y]
  {
    assert [x, y][..1] == [x] && [x][..0] == [];
    assert Kept([x], pods) == if Lists(pods, x.pod.body.uid) then [x] else [];
  }

  lemma UpsertOwnPod(b: Item, rest: seq<Item>)
    ensures UpsertAll([b] + rest, [b.pod]) == [b] + rest
  {
  }

  /** The damage: one listed, synced pod is reported twice, until the poller replaces the cache. */
  lemma SecondCollectCountsTwice(a: Item, b: Item)
    requires a.pod.body.uid != b.pod.body.uid && b.err.None? && !b.status.catchingUp
    ensures Synced(Collected([a, b], [b.pod])) == [b]
    ensures Synced(Collected(CacheView([a, b], 2, [b.pod]), [b.pod])) == [b, b]
  {
    var pods := [b.pod];
    assert pods[0] == b.pod;
    KeptTwo(a, b, pods);
    KeptTwo(b, b, pods);
    UpsertOwnPod(b, []);
    UpsertOwnPod(b, [b]);
    assert [b] + [] == [b] && [b] + [b] == [b, b];
    assert [a, b][..2] == [a, b] && pods[..1] == pods;
    assert InPlace([b], 2, pods) == 1;
    assert CacheView([a, b], 2, pods) == [b, b];
    SyncedSnoc([], b);
    SyncedSnoc([b], b);
  }

  lemma SyncedSnoc(coll: seq<Item>, x: Item)
    ensures Synced(coll + [x]) == if x.err.Some? || x.status.catchingUp then Synced(coll) else Synced(coll) + [x]
  {
    assert (coll + [x])[..|coll|] == coll;
  }

  // ----- the status map the pod controller works from

  /** `Synced`. */
  function Synced(coll: seq<Item>): seq<Item> {
    if coll == [] then []
    else
      var last := coll[|coll| - 1];
      var rest := Synced(coll[..|coll| - 1]);
      if last.err.Some? || last.status.catchingUp then rest else rest + [last]
  }

  /** `Synced` keeps exactly the items polled without an error and caught up, in order. */
  lemma {:induction false} SyncedExactly(coll: seq<Item>)
    ensures |Synced(coll)| == |CaughtUp(coll, |coll|)|
    ensures forall i :: i in CaughtUp(coll, |coll|) ==>
      var rank := |CaughtUp(coll, i)|;
      rank < |Synced(coll)| && Synced(coll)[rank] == coll[i]
  {
    if coll == [] {
      assert CaughtUp(coll, 0) == {};
    } else {
      SyncedExactly(coll[..|coll| - 1]);
      CaughtUpSnoc(coll);
    }
  }

  ghost function CaughtUp(coll: seq<Item>, n: nat): set<int>
    requires n <= |coll|
  {
    set i | 0 <= i < n && coll[i].err.None? && !coll[i].status.catchingUp
  }

  lemma CaughtUpSnoc(coll: seq<Item>)
    requires coll != []
    ensures var front, n := coll[..|coll| - 1], |coll| - 1;
      && (forall i :: 0 <= i <= n ==> CaughtUp(front, i) == CaughtUp(coll, i))
      && n !in CaughtUp(coll, n)
      && CaughtUp(coll, n + 1) == if coll[n].err.None? && !coll[n].status.catchingUp then CaughtUp(coll, n) + {n} else CaughtUp(coll, n)
  {
    var front := coll[..|coll| - 1];
    forall i | 0 <= i <= |coll| - 1 ensures CaughtUp(front, i) == CaughtUp(coll, i) {
    }
  }

  function SyncEntry(x: Item): PodSync {
    if x.err.Some? then PodSync(None, x.err) else PodSync(Some(!x.status.catchingUp), None)
  }

  function SyncInfoOf(coll: seq<Item>): SyncMap {
    if coll == [] then map[]
    else SyncInfoOf(coll[..|coll| - 1])[coll[|coll| - 1].pod.key := SyncEntry(coll[|coll| - 1])]
  }

  /** `SyncInfoStatus`. */
  method SyncInfoStatus(coll: seq<Item>) returns (status: SyncMap)
    ensures status == SyncInfoOf(coll)
  {
    status := map[];
    for i := 0 to |coll|
      invariant status == SyncInfoOf(coll[..i])
    {
      var item := coll[i];
      assert coll[..i + 1][..i] == coll[..i];
      if item.err.Some? {
        status := status[item.pod.key := PodSync(None, item.err)];
      } else {
        status := status[item.pod.key := PodSync(Some(!item.status.catchingUp), None)];
      }
    }
    assert coll[..|coll|] == coll;
  }

  lemma {:induction false} SyncInfoEntries(coll: seq<Item>)
    ensures forall x :: x in coll ==> x.pod.key in SyncInfoOf(coll)
    ensures forall k :: k in SyncInfoOf(coll) ==> exists x :: x in coll && x.pod.key == k && SyncInfoOf(coll)[k] == SyncEntry(x)
  {
    if coll != [] {
      SyncInfoEntries(coll[..|coll| - 1]);
      assert coll == coll[..|coll| - 1] + [coll[|coll| - 1]];
    }
  }

  /** A listed pod's entry is the one of its own item. */
  lemma OwnEntry(coll: seq<Item>, pods: seq<Pod>, p: Pod)
    requires DistinctUids(coll) && DistinctPods(pods) && UniqueKeys(pods) && p in pods
    ensures var sync := SyncInfoOf(Collected(coll, pods));
      p.key in sync && exists x: Item :: x.pod == p && Fresh(coll, x) && sync[p.key] == SyncEntry(x)
  {
    var r := Collected(coll, pods);
    CollectedExactly(coll, pods);
    SyncInfoEntries(r);
    var y :| y in r && y.pod == p;
    var x :| x in r && x.pod.key == p.key && SyncInfoOf(r)[p.key] == SyncEntry(x);
    assert x.pod in pods;
  }

  /** A status polled from that very pod, without an error. */
  ghost predicate Polled(coll: seq<Item>, p: Pod, catchingUp: bool) {
    exists c :: c in coll && c.pod.body.uid == p.body.uid && c.err.None? && c.status.catchingUp == catchingUp
  }

  /** The entry of a listed pod, from its own item. */
  lemma EntryMeans(coll: seq<Item>, pods: seq<Pod>, p: Pod)
    requires DistinctUids(coll) && DistinctPods(pods) && UniqueKeys(pods) && p in pods
    ensures var sync := SyncInfoOf(Collected(coll, pods));
      && p.key in sync
      && (sync[p.key].inSync == Some(true) <==> Polled(coll, p, false))
      && (sync[p.key].inSync == Some(false) <==> Polled(coll, p, true))
      && (sync[p.key].error.None? <==> Polled(coll, p, false) || Polled(coll, p, true))
  {
    OwnEntry(coll, pods, p);
    var sync := SyncInfoOf(Collected(coll, pods));
    var x: Item :| x.pod == p && Fresh(coll, x) && sync[p.key] == SyncEntry(x);
    forall c, e | c in coll && e in coll && c.pod.body.uid == e.pod.body.uid ensures c == e {
      var i :| 0 <= i < |coll| && coll[i] == c;
      var j :| 0 <= j < |coll| && coll[j] == e;
    }
    if Holds(coll, p.body.uid) {
      var i :| 0 <= i < |coll| && coll[i].pod.body.uid == p.body.uid;
      assert coll[i] in coll;
    } else {
      assert forall c :: c in coll ==> c.pod.body.uid != p.body.uid;
    }
  }

  /**
   * The status map built from the cache: it has an entry for every listed pod and no others, never calls a pod
   * both in sync and in error, and calls a live pod in sync iff a status polled from that very pod (same UID) says it
   * has caught up, so a recreated pod does not inherit its predecessor's status.
   */
  lemma SyncInfoTrustworthy(coll: seq<Item>, pods: seq<Pod>)
    requires DistinctUids(coll) && DistinctPods(pods) && UniqueKeys(pods)
    ensures var sync := SyncInfoOf(Collected(coll, pods));
      && Consistent(sync)
      && (forall k :: k in sync <==> HasKey(pods, k))
      && (forall p :: p in pods ==> (InSync(p, sync) <==> !p.body.terminating && Polled(coll, p, false)))
  {
    SyncInfoKeys(coll, pods);
    forall p | p in pods
      ensures InSync(p, SyncInfoOf(Collected(coll, pods))) <==> !p.body.terminating && Polled(coll, p, false)
    {
      EntryMeans(coll, pods, p);
    }
  }

  lemma SyncInfoKeys(coll: seq<Item>, pods: seq<Pod>)
    requires DistinctUids(coll) && DistinctPods(pods)
    ensures Consistent(SyncInfoOf(Collected(coll, pods)))
    ensures forall k :: k in SyncInfoOf(Collected(coll, pods)) <==> HasKey(pods, k)
  {
    CollectedExactly(coll, pods);
    SyncInfoEntries(Collected(coll, pods));
  }
}
