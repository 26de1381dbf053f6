/**
 * internal/diff/diff.go: the creates, deletes and updates that take a current set of resources to a wanted one.
 *
 * A live object's revision and ordinal are the label and the annotation that an earlier diff wrote on it. A
 * wanted resource's revision is the hash of its content, an abstract value here.
 */
module Diff {
  import opened Common
  import Names

  type Key = Names.Bytes

  datatype Resource<+T> = Resource(key: Key, revision: string, ordinal: int, body: T)

  datatype Diff<+T> = Diff(creates: seq<Resource<T>>, deletes: seq<Resource<T>>, updates: seq<Resource<T>>)

  ghost predicate UniqueKeys<T>(s: seq<Resource<T>>) {
    forall i, j :: 0 <= i < j < |s| ==> s[i].key != s[j].key
  }

  ghost predicate HasKey<T>(s: seq<Resource<T>>, key: Key) {
    exists r :: r in s && r.key == key
  }

  ghost predicate SortedByOrdinal<T>(s: seq<Resource<T>>) {
    forall i, j :: 0 <= i < j < |s| ==> s[i].ordinal <= s[j].ordinal
  }

  /** Some resource of `current` has r's key and another revision. */
  ghost predicate Outdated<T>(r: Resource<T>, current: seq<Resource<T>>) {
    exists c :: c in current && c.key == r.key && c.revision != r.revision
  }

  /** A well-ordered list: one entry per key, ascending ordinals. */
  ghost predicate Ordered<T>(s: seq<Resource<T>>) {
    UniqueKeys(s) && SortedByOrdinal(s)
  }

  /** What `New` promises of its three lists, whatever order Go ranges over its maps in. */
  ghost predicate IsDiff<T(!new)>(d: Diff<T>, current: seq<Resource<T>>, want: seq<Resource<T>>) {
    && Ordered(d.creates) && Ordered(d.deletes) && Ordered(d.updates)
    && (forall r :: r in d.creates <==> r in want && !HasKey(current, r.key))
    && (forall r :: r in d.deletes <==> r in current && !HasKey(want, r.key))
    && (forall r :: r in d.updates <==> r in want && Outdated(r, current))
  }

  // ----- the algorithm

  lemma UniqueKeysSnoc<T>(s: seq<Resource<T>>, r: Resource<T>)
    ensures UniqueKeys(s + [r]) <==> UniqueKeys(s) && !HasKey(s, r.key)
  {
    var t := s + [r];
    if UniqueKeys(t) {
      assert forall i :: 0 <= i < |s| ==> t[i].key != t[|s|].key && s[i] == t[i];
    }
  }

  /** m files every resource of s under its key, and has as many entries as s exactly if no key repeats. */
  ghost predicate Filed<T>(m: map<Key, Resource<T>>, s: seq<Resource<T>>) {
    && (forall r :: r in s ==> r.key in m)
    && (forall k :: k in m ==> m[k] in s && m[k].key == k)
    && |m| <= |s|
    && (|m| == |s| <==> UniqueKeys(s))
  }

  lemma FiledSnoc<T>(m: map<Key, Resource<T>>, s: seq<Resource<T>>, r: Resource<T>)
    requires Filed(m, s)
    ensures Filed(m[r.key := r], s + [r])
  {
    UniqueKeysSnoc(s, r);
    assert r.key in m <==> HasKey(s, r.key);
    assert m[r.key := r].Keys == m.Keys + {r.key};
  }

  /** Later entries win, as in a Go map filled by a loop. */
  function MapOf<T>(s: seq<Resource<T>>): map<Key, Resource<T>> {
    if s == [] then map[] else MapOf(s[..|s| - 1])[s[|s| - 1].key := s[|s| - 1]]
  }

  lemma {:induction false} MapOfFiled<T>(s: seq<Resource<T>>)
    ensures Filed(MapOf(s), s)
  {
    if s != [] {
      MapOfFiled(s[..|s| - 1]);
      FiledSnoc(MapOf(s[..|s| - 1]), s[..|s| - 1], s[|s| - 1]);
      assert s == s[..|s| - 1] + [s[|s| - 1]];
    }
  }

  /** `currentToSet` and `toSet`. */
  method ToSet<T>(list: seq<Resource<T>>) returns (m: map<Key, Resource<T>>)
    ensures Filed(m, list)
  {
    m := map[];
    for i := 0 to |list|
      invariant m == MapOf(list[..i])
    {
      m := m[list[i].key := list[i]];
      assert list[..i + 1][..i] == list[..i];
    }
    assert list[..|list|] == list;
    MapOfFiled(list);
  }

  /** One step of an insertion sort; it stands for `sort.Slice`, of which only the sorted result is used. */
  function Insert<T>(s: seq<Resource<T>>, x: Resource<T>): seq<Resource<T>> {
    if s == [] || x.ordinal < s[0].ordinal then [x] + s else [s[0]] + Insert(s[1..], x)
  }

  lemma {:induction false} InsertMembers<T(!new)>(s: seq<Resource<T>>, x: Resource<T>)
    ensures forall r :: r in Insert(s, x) <==> r in s || r == x
  {
    if s != [] && x.ordinal >= s[0].ordinal {
      InsertMembers(s[1..], x);
      assert s == [s[0]] + s[1..];
    }
  }

  lemma {:induction false} InsertKeeps<T(!new)>(s: seq<Resource<T>>, x: Resource<T>)
    requires Ordered(s) && !HasKey(s, x.key)
    ensures Ordered(Insert(s, x))
  {
    if s != [] && x.ordinal >= s[0].ordinal {
      var rest := Insert(s[1..], x);
      assert forall r :: r in s[1..] ==> r in s;
      InsertKeeps(s[1..], x);
      InsertMembers(s[1..], x);
      forall i | 0 <= i < |rest| ensures s[0].ordinal <= rest[i].ordinal && s[0].key != rest[i].key {
        assert rest[i] in rest;
        assert rest[i] == x || exists j :: 0 < j < |s| && s[j] == rest[i];
      }
    }
  }

  /** `sortByOrdinal`. */
  method SortResources<T(!new)>(list: seq<Resource<T>>) returns (r: seq<Resource<T>>)
    requires UniqueKeys(list)
    ensures Ordered(r)
    ensures forall x :: x in r <==> x in list
  {
    r := [];
    for i := 0 to |list|
      invariant Ordered(r)
      invariant forall x :: x in r <==> x in list[..i]
    {
      assert forall x :: x in list[..i] ==> exists j :: 0 <= j < i && list[j] == x;
      assert !HasKey(r, list[i].key);
      InsertMembers(r, list[i]);
      InsertKeeps(r, list[i]);
      r := Insert(r, list[i]);
      assert list[..i + 1] == list[..i] + [list[i]];
    }
    assert list[..|list|] == list;
  }

  /** Resources of `from` whose key `other` lacks, in whatever order the map is ranged over, then sorted. */
  method Missing<T(!new)>(from: map<Key, Resource<T>>, other: map<Key, Resource<T>>)
    returns (r: seq<Resource<T>>)
    requires forall k :: k in from ==> from[k].key == k
    ensures Ordered(r)
    ensures forall x :: x in r <==> x.key in from && from[x.key] == x && x.key !in other
  {
    r := [];
    var todo := from.Keys;
    while todo != {}
      invariant todo <= from.Keys
      invariant UniqueKeys(r)
      invariant forall x :: x in r <==> x.key in from && from[x.key] == x && x.key !in other && x.key !in todo
    {
      var k :| k in todo;
      if k !in other {
        r := r + [from[k]];
      }
      todo := todo - {k};
    }
    r := SortResources(r);
  }

  /** `computeUpdates`. */
  method Changed<T(!new)>(current: map<Key, Resource<T>>, want: map<Key, Resource<T>>)
    returns (r: seq<Resource<T>>)
    requires forall k :: k in want ==> want[k].key == k
    ensures Ordered(r)
    ensures forall x :: x in r <==>
      x.key in want && want[x.key] == x && x.key in current && current[x.key].revision != x.revision
  {
    r := [];
    var todo := current.Keys;
    while todo != {}
      invariant todo <= current.Keys
      invariant UniqueKeys(r)
      invariant forall x :: x in r <==>
        x.key in want && want[x.key] == x && x.key in current && current[x.key].revision != x.revision && x.key !in todo
    {
      var k :| k in todo;
      if k in want && current[k].revision != want[k].revision {
        r := r + [want[k]];
      }
      todo := todo - {k};
    }
    r := SortResources(r);
  }

  /** `New`; None stands for the two uniqueness panics. */
  method New<T(!new)>(current: seq<Resource<T>>, want: seq<Resource<T>>) returns (d: Option<Diff<T>>)
    ensures d.Some? <==> UniqueKeys(current) && UniqueKeys(want)
    ensures d.Some? ==> IsDiff(d.value, current, want)
  {
    var currentSet := ToSet(current);
    if |currentSet| != |current| {
      return None;
    }
    var wantSet := ToSet(want);
    if |wantSet| != |want| {
      return None;
    }
    var creates := Missing(wantSet, currentSet);
    var deletes := Missing(currentSet, wantSet);
    var updates := Changed(currentSet, wantSet);
    d := Some(Diff(creates, deletes, updates));
    AssembleDiff(d.value, current, want, currentSet, wantSet);
  }

  lemma AssembleDiff<T(!new)>(d: Diff<T>, current: seq<Resource<T>>, want: seq<Resource<T>>,
                              currentSet: map<Key, Resource<T>>, wantSet: map<Key, Resource<T>>)
    requires UniqueKeys(current) && Filed(currentSet, current) && UniqueKeys(want) && Filed(wantSet, want)
    requires Ordered(d.creates) && Ordered(d.deletes) && Ordered(d.updates)
    requires forall x :: x in d.creates <==> x.key in wantSet && wantSet[x.key] == x && x.key !in currentSet
    requires forall x :: x in d.deletes <==> x.key in currentSet && currentSet[x.key] == x && x.key !in wantSet
    requires forall x :: x in d.updates <==>
      x.key in wantSet && wantSet[x.key] == x && x.key in currentSet && currentSet[x.key].revision != x.revision
    ensures IsDiff(d, current, want)
  {
    ByKey(current, currentSet);
    ByKey(want, wantSet);
    forall r ensures r in d.updates <==> r in want && Outdated(r, current) {
    }
  }

  lemma ByKey<T(!new)>(list: seq<Resource<T>>, m: map<Key, Resource<T>>)
    requires UniqueKeys(list) && Filed(m, list)
    ensures forall r :: r in list <==> r.key in m && m[r.key] == r
    ensures forall k :: k in m <==> HasKey(list, k)
  {
  }

  // ----- what a diff means

  lemma SomeMember<T(!new)>(s: seq<T>)
    requires s != []
    ensures exists r :: r in s
  {
    assert s[0] in s;
  }

  /** Every key of current or want is in exactly one of: creates, deletes, updates, or matching on both sides. */
  lemma Partition<T(!new)>(d: Diff<T>, current: seq<Resource<T>>, want: seq<Resource<T>>, key: Key)
    requires IsDiff(d, current, want) && UniqueKeys(current) && UniqueKeys(want)
    ensures HasKey(d.creates, key) <==> HasKey(want, key) && !HasKey(current, key)
    ensures HasKey(d.deletes, key) <==> HasKey(current, key) && !HasKey(want, key)
    ensures HasKey(d.updates, key) ==> HasKey(current, key) && HasKey(want, key)
    ensures HasKey(current, key) && HasKey(want, key) ==>
      (!HasKey(d.updates, key) <==> exists c, w :: c in current && w in want && c.key == w.key == key && c.revision == w.revision)
  {
  }

  /** The live objects once every step of the diff has been carried out. */
  ghost predicate Applied<T(!new)>(d: Diff<T>, current: seq<Resource<T>>, after: seq<Resource<T>>) {
    && UniqueKeys(after)
    && forall r :: r in after <==>
         r in d.creates || r in d.updates || (r in current && !HasKey(d.deletes, r.key) && !HasKey(d.updates, r.key))
  }

  /** Carrying out a diff reaches a state with nothing left to do: a second diff against the same want is empty. */
  lemma Converges<T(!new)>(d: Diff<T>, current: seq<Resource<T>>, want: seq<Resource<T>>,
                           after: seq<Resource<T>>, again: Diff<T>)
    requires UniqueKeys(current) && UniqueKeys(want)
    requires IsDiff(d, current, want) && Applied(d, current, after) && IsDiff(again, after, want)
    ensures again == Diff([], [], [])
  {
    forall w | w in want ensures exists r :: r in after && r.key == w.key && r.revision == w.revision {
      ReachesWant(d, current, want, after, w);
    }
    assert forall r :: r in after ==> HasKey(want, r.key);
    NothingLeft(after, want, again);
  }

  lemma NothingLeft<T(!new)>(after: seq<Resource<T>>, want: seq<Resource<T>>, again: Diff<T>)
    requires UniqueKeys(after) && IsDiff(again, after, want)
    requires forall w :: w in want ==> exists r :: r in after && r.key == w.key && r.revision == w.revision
    requires forall r :: r in after ==> HasKey(want, r.key)
    ensures again == Diff([], [], [])
  {
    assert forall r, q :: r in after && q in after && r.key == q.key ==> r == q;
    if again.creates != [] { SomeMember(again.creates); }
    if again.deletes != [] { SomeMember(again.deletes); }
    if again.updates != [] { SomeMember(again.updates); }
  }

  lemma ReachesWant<T(!new)>(d: Diff<T>, current: seq<Resource<T>>, want: seq<Resource<T>>,
                             after: seq<Resource<T>>, w: Resource<T>)
    requires UniqueKeys(current) && UniqueKeys(want) && w in want
    requires IsDiff(d, current, want) && Applied(d, current, after)
    ensures exists r :: r in after && r.key == w.key && r.revision == w.revision
  {
  }

  ghost predicate StrictlySorted<T>(s: seq<Resource<T>>) {
    forall i, j :: 0 <= i < j < |s| ==> s[i].ordinal < s[j].ordinal
  }

  lemma TailMembers<T(!new)>(s: seq<Resource<T>>)
    requires s != [] && StrictlySorted(s)
    ensures StrictlySorted(s[1..])
    ensures forall r :: r in s[1..] <==> r in s && r != s[0]
  {
  }

  lemma {:induction false} SortedListsAgree<T(!new)>(s: seq<Resource<T>>, t: seq<Resource<T>>)
    requires StrictlySorted(s) && StrictlySorted(t)
    requires forall r :: r in s <==> r in t
    ensures s == t
  {
    if s != [] {
      assert s[0] in t && t[0] in s;
      assert s[0] == t[0];
      TailMembers(s);
      TailMembers(t);
      SortedListsAgree(s[1..], t[1..]);
      assert s == [s[0]] + s[1..] && t == [t[0]] + t[1..];
    } else {
      if t != [] { SomeMember(t); }
    }
  }

  /** With distinct wanted ordinals, creates and updates do not depend on Go's map iteration order. */
  lemma OrderIndependent<T(!new)>(d: Diff<T>, e: Diff<T>, current: seq<Resource<T>>, want: seq<Resource<T>>)
    requires IsDiff(d, current, want) && IsDiff(e, current, want)
    requires forall i, j :: 0 <= i < j < |want| ==> want[i].ordinal != want[j].ordinal
    ensures d.creates == e.creates && d.updates == e.updates
  {
    forall s: seq<Resource<T>> | Ordered(s) && (forall r :: r in s ==> r in want) ensures StrictlySorted(s) {
      forall i, j | 0 <= i < j < |s| ensures s[i].ordinal < s[j].ordinal {
        assert s[i] in want && s[j] in want && s[i] != s[j];
      }
    }
    SortedListsAgree(d.creates, e.creates);
    SortedListsAgree(d.updates, e.updates);
  }
}
