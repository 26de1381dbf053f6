/**
 * The three loops over `ChainSpec.Versions`: `findVersion` (internal/fullnode/pod_builder.go), the halt height of
 * `BuildConfigMaps` (internal/fullnode/configmap_builder.go) and the image check of cmd/versioncheck.go; with the
 * image setters of internal/fullnode/build_pods.go and internal/fullnode/pod_builder.go.
 */
module Versions {
  import opened Common

  datatype ChainVersion = ChainVersion(upgradeHeight: nat, image: string, initContainers: map<string, string>,
                                       containers: map<string, string>, setHaltHeight: bool)

  type Plan = seq<ChainVersion>

  ghost predicate Ascending(vs: Plan) {
    forall i, j :: 0 <= i < j < |vs| ==> vs[i].upgradeHeight <= vs[j].upgradeHeight
  }

  ghost predicate StrictlyAscending(vs: Plan) {
    forall i, j :: 0 <= i < j < |vs| ==> vs[i].upgradeHeight < vs[j].upgradeHeight
  }

  // ----- the maximum search

  /** The highest upgrade at or below `h`, the first listed if several share that height. */
  ghost predicate Best(vs: Plan, h: nat, r: Option<nat>) {
    match r
    case None => forall j :: 0 <= j < |vs| ==> vs[j].upgradeHeight > h
    case Some(i) =>
      && i < |vs| && vs[i].upgradeHeight <= h
      && (forall j :: 0 <= j < |vs| && vs[j].upgradeHeight <= h ==> vs[j].upgradeHeight <= vs[i].upgradeHeight)
      && (forall j :: 0 <= j < i ==> vs[j].upgradeHeight != vs[i].upgradeHeight)
  }

  lemma BestIsUnique(vs: Plan, h: nat, r: Option<nat>, s: Option<nat>)
    requires Best(vs, h, r) && Best(vs, h, s)
    ensures r == s
  {
  }

  /** `findVersion`. */
  method FindVersion(versions: Plan, currentHeight: nat) returns (selected: Option<nat>)
    ensures Best(versions, currentHeight, selected)
  {
    selected := None;
    for i := 0 to |versions|
      invariant Best(versions[..i], currentHeight, selected)
    {
      var v := versions[i];
      if v.upgradeHeight <= currentHeight {
        if selected.None? || v.upgradeHeight > versions[selected.value].upgradeHeight {
          selected := Some(i);
        }
      }
      assert versions[..i + 1] == versions[..i] + [v];
    }
    assert versions[..|versions|] == versions;
  }

  // ----- the two scans

  /** How many versions a scan passes before one lies above `h`. */
  function Passed(vs: Plan, h: nat): (n: nat)
    ensures n <= |vs| && (n < |vs| ==> h < vs[n].upgradeHeight)
    ensures forall i :: 0 <= i < n ==> vs[i].upgradeHeight <= h
  {
    if vs == [] || h < vs[0].upgradeHeight then 0 else 1 + Passed(vs[1..], h)
  }

  lemma PassedIsUnique(vs: Plan, h: nat, n: nat)
    requires n <= |vs| && (n < |vs| ==> h < vs[n].upgradeHeight)
    requires forall i :: 0 <= i < n ==> vs[i].upgradeHeight <= h
    ensures Passed(vs, h) == n
  {
  }

  function ScanIndex(vs: Plan, h: nat): Option<nat> {
    if Passed(vs, h) == 0 then None else Some(Passed(vs, h) - 1)
  }

  function ScanImage(template: string, vs: Plan, h: nat): string {
    if Passed(vs, h) == 0 then template else vs[Passed(vs, h) - 1].image
  }

  /** The halt height the app config gets; with no versions the configured one stays. */
  function Halt(vs: Plan, h: nat, configured: Option<nat>): Option<nat> {
    var n := Passed(vs, h);
    if vs == [] then configured
    else if n < |vs| && vs[n].setHaltHeight then Some(vs[n].upgradeHeight)
    else Some(0)
  }

  /** The halt-height loop, for an instance that may not have reported a height. */
  method HaltHeight(versions: Plan, reported: Option<nat>, configured: Option<nat>) returns (halt: Option<nat>)
    ensures halt == Halt(versions, if reported.Some? then reported.value else 0, configured)
  {
    halt := configured;
    if |versions| > 0 {
      var instanceHeight := 0;
      if reported.Some? {
        instanceHeight := reported.value;
      }
      var haltHeight := 0;
      var i := 0;
      while i < |versions|
        invariant 0 <= i <= |versions|
        invariant forall k :: 0 <= k < i ==> versions[k].upgradeHeight <= instanceHeight
        invariant i == |versions| ==> haltHeight == 0
      {
        var v := versions[i];
        if v.setHaltHeight {
          haltHeight := v.upgradeHeight;
        } else {
          haltHeight := 0;
        }
        if instanceHeight < v.upgradeHeight {
          break;
        }
        if i == |versions| - 1 {
          haltHeight := 0;
        }
        i := i + 1;
      }
      PassedIsUnique(versions, instanceHeight, i);
      halt := Some(haltHeight);
    }
  }

  // ----- search and scan agree exactly on strictly ascending plans

  lemma ScanIsBest(vs: Plan, h: nat)
    requires StrictlyAscending(vs)
    ensures Best(vs, h, ScanIndex(vs, h))
  {
  }

  /** The first version that does not lie above its predecessor. */
  lemma {:induction false} FirstViolation(vs: Plan) returns (i: nat)
    requires !StrictlyAscending(vs)
    ensures i + 1 < |vs| && vs[i].upgradeHeight >= vs[i + 1].upgradeHeight && StrictlyAscending(vs[..i + 1])
  {
    var n := |vs| - 1;
    if StrictlyAscending(vs[..n]) {
      i := n - 1;
      if vs[i].upgradeHeight < vs[n].upgradeHeight {
        forall a, b | 0 <= a < b < |vs| ensures vs[a].upgradeHeight < vs[b].upgradeHeight {
          assert b < n ==> vs[..n][a].upgradeHeight < vs[..n][b].upgradeHeight;
          assert a < i ==> vs[..n][a].upgradeHeight < vs[..n][i].upgradeHeight;
        }
      }
    } else {
      i := FirstViolation(vs[..n]);
      assert vs[..n][..i + 1] == vs[..i + 1];
    }
  }

  /** At the height of the first violation the search stays on it and the scan runs past it. */
  lemma ViolationSeparates(vs: Plan, i: nat)
    requires i + 1 < |vs| && vs[i].upgradeHeight >= vs[i + 1].upgradeHeight && StrictlyAscending(vs[..i + 1])
    ensures !Best(vs, vs[i].upgradeHeight, ScanIndex(vs, vs[i].upgradeHeight))
  {
  }

  /** Version agreement: the search and the scan pick the same version at every height iff the plan strictly ascends. */
  lemma SearchEqualsScanExactly(vs: Plan)
    ensures StrictlyAscending(vs) <==> forall h: nat :: Best(vs, h, ScanIndex(vs, h))
  {
    if StrictlyAscending(vs) {
      forall h: nat ensures Best(vs, h, ScanIndex(vs, h)) {
        ScanIsBest(vs, h);
      }
    } else {
      var i := FirstViolation(vs);
      ViolationSeparates(vs, i);
    }
  }

  // ----- halt heights

  /** Without versions the configured halt height stays. */
  lemma NoPlanKeepsHalt(h: nat, configured: Option<nat>)
    ensures Halt([], h, configured) == configured
  {
  }

  /** For any plan, sorted or not, a node is never told to halt at or below the height it has reached. */
  lemma HaltIsAhead(vs: Plan, h: nat, configured: Option<nat>)
    requires vs != []
    ensures Halt(vs, h, configured).Some?
    ensures var x := Halt(vs, h, configured).value; x != 0 ==> x > h
  {
  }

  /**
   * Halt exactness: in an ascending plan a nonzero halt height is the least upgrade height above `h`; from `h` up
   * to it the selected version, by search and by scan, does not change; at it both change.
   */
  lemma HaltIsNextUpgrade(vs: Plan, h: nat, configured: Option<nat>, x: nat)
    requires vs != [] && Ascending(vs) && Halt(vs, h, configured) == Some(x) && x != 0
    ensures exists i :: 0 <= i < |vs| && vs[i].upgradeHeight == x && vs[i].setHaltHeight
    ensures forall i :: 0 <= i < |vs| && vs[i].upgradeHeight > h ==> x <= vs[i].upgradeHeight
    ensures forall g: nat, r :: h <= g < x ==> (Best(vs, g, r) <==> Best(vs, h, r))
    ensures forall g: nat :: h <= g < x ==> ScanIndex(vs, g) == ScanIndex(vs, h)
    ensures forall r, s :: Best(vs, h, r) && Best(vs, x, s) ==> r != s
    ensures ScanIndex(vs, x) != ScanIndex(vs, h)
  {
  }

  /** The halt height is zero exactly if no upgrade lies ahead or the next one listed does not ask for it. */
  lemma NoHaltExactly(vs: Plan, h: nat, configured: Option<nat>)
    requires vs != [] && Ascending(vs)
    ensures Halt(vs, h, configured) == Some(0) <==>
      forall i :: 0 <= i < |vs| && vs[i].upgradeHeight > h && vs[i].setHaltHeight ==>
        exists j :: 0 <= j < i && vs[j].upgradeHeight > h && !vs[j].setHaltHeight
  {
  }

  // ----- images of a pod's containers

  const MAIN_CONTAINER: string := "node"
  const CHAIN_INIT_CONTAINER: string := "chain-init"

  datatype Container = Container(name: string, image: string)

  predicate FirstOfName(cs: seq<Container>, i: nat)
    requires i < |cs|
  {
    forall j :: 0 <= j < i ==> cs[j].name != cs[i].name
  }

  /** Every named image set on the first container of that name. */
  function Reimaged(cs: seq<Container>, images: map<string, string>): (r: seq<Container>)
    ensures |r| == |cs|
  {
    seq(|cs|, i requires 0 <= i < |cs| =>
      if cs[i].name in images && FirstOfName(cs, i) then cs[i].(image := images[cs[i].name]) else cs[i])
  }

  /** Setting images in two rounds is setting the union, the second round winning. */
  lemma ReimagedTwice(cs: seq<Container>, m: map<string, string>, n: map<string, string>)
    ensures Reimaged(Reimaged(cs, m), n) == Reimaged(cs, m + n)
  {
    var r := Reimaged(cs, m);
    assert forall i :: 0 <= i < |cs| ==> r[i].name == cs[i].name;
    assert forall i :: 0 <= i < |cs| ==> (FirstOfName(r, i) <==> FirstOfName(cs, i));
  }

  /** The loop with its break that overwrites one container's image. */
  method SetImage(containers: array<Container>, name: string, image: string)
    modifies containers
    ensures containers[..] == Reimaged(old(containers[..]), map[name := image])
  {
    ghost var was := containers[..];
    for i := 0 to containers.Length
      invariant containers[..] == was
      invariant forall j :: 0 <= j < i ==> was[j].name != name
    {
      if containers[i].name == name {
        containers[i] := Container(name, image);
        assert FirstOfName(was, i);
        return;
      }
    }
  }

  /** One of the two map loops; the result does not depend on the order Go ranges over the map in. */
  method SetImages(containers: array<Container>, images: map<string, string>)
    modifies containers
    ensures containers[..] == Reimaged(old(containers[..]), images)
  {
    ghost var was := containers[..];
    var todo := images.Keys;
    assert images - todo == map[];
    while todo != {}
      invariant todo <= images.Keys && containers[..] == Reimaged(was, images - todo)
    {
      var name :| name in todo;
      SetImage(containers, name, images[name]);
      ReimagedOnceMore(was, images, todo, name);
      todo := todo - {name};
    }
    assert images - {} == images;
  }

  lemma ReimagedOnceMore(cs: seq<Container>, images: map<string, string>, todo: set<string>, name: string)
    requires name in todo && todo <= images.Keys
    ensures Reimaged(Reimaged(cs, images - todo), map[name := images[name]]) == Reimaged(cs, images - (todo - {name}))
  {
    ReimagedTwice(cs, images - todo, map[name := images[name]]);
    assert (images - todo) + map[name := images[name]] == images - (todo - {name});
  }

  /** The images a version prescribes; an entry of its own for the main container beats its image. */
  function MainImages(v: ChainVersion): map<string, string> {
    map[MAIN_CONTAINER := v.image] + v.containers
  }

  function InitImages(v: ChainVersion): map<string, string> {
    map[CHAIN_INIT_CONTAINER := v.image] + v.initContainers
  }

  /** `setChainContainerImages`. */
  method SetChainContainerImages(containers: array<Container>, initContainers: array<Container>, v: ChainVersion)
    requires containers != initContainers
    modifies containers, initContainers
    ensures containers[..] == Reimaged(old(containers[..]), MainImages(v))
    ensures initContainers[..] == Reimaged(old(initContainers[..]), InitImages(v))
  {
    ghost var cs, inits := containers[..], initContainers[..];
    SetImage(containers, MAIN_CONTAINER, v.image);
    SetImage(initContainers, CHAIN_INIT_CONTAINER, v.image);
    SetImages(initContainers, v.initContainers);
    SetImages(containers, v.containers);
    ReimagedTwice(cs, map[MAIN_CONTAINER := v.image], v.containers);
    ReimagedTwice(inits, map[CHAIN_INIT_CONTAINER := v.image], v.initContainers);
  }

  /** The version the search selects. */
  ghost function Selected(vs: Plan, h: nat): (r: Option<nat>)
    ensures Best(vs, h, r)
  {
    if vs == [] then None
    else
      var n := |vs| - 1;
      var r := Selected(vs[..n], h);
      if vs[n].upgradeHeight <= h && (r.None? || vs[n].upgradeHeight > vs[r.value].upgradeHeight) then Some(n) else r
  }

  /** The containers `Build` ends with, from those of the merged template; an empty override is none. */
  ghost function Built(cs: seq<Container>, vs: Plan, reported: Option<nat>, override: string): seq<Container> {
    var versioned :=
      if reported.Some? && Selected(vs, reported.value).Some? then
        Reimaged(cs, MainImages(vs[Selected(vs, reported.value).value]))
      else cs;
    if override != "" then Reimaged(versioned, map[MAIN_CONTAINER := override]) else versioned
  }

  /** The image decisions of `Build`. */
  method BuildImages(containers: array<Container>, initContainers: array<Container>, versions: Plan,
                     reported: Option<nat>, override: string)
    requires containers != initContainers
    modifies containers, initContainers
    ensures containers[..] == Built(old(containers[..]), versions, reported, override)
    ensures initContainers[..] ==
      if reported.Some? && Selected(versions, reported.value).Some? then
        Reimaged(old(initContainers[..]), InitImages(versions[Selected(versions, reported.value).value]))
      else old(initContainers[..])
  {
    if |versions| > 0 && reported.Some? {
      var selected := FindVersion(versions, reported.value);
      BestIsUnique(versions, reported.value, selected, Selected(versions, reported.value));
      if selected.Some? {
        SetChainContainerImages(containers, initContainers, versions[selected.value]);
      }
    }
    if override != "" {
      SetImage(containers, MAIN_CONTAINER, override);
    }
  }

  /** The image of the last container called node, empty if there is none. */
  function NodeImage(cs: seq<Container>): string {
    if cs == [] then ""
    else if cs[|cs| - 1].name == MAIN_CONTAINER then cs[|cs| - 1].image
    else NodeImage(cs[..|cs| - 1])
  }

  /** The verdict of `checkVersion` on a running pod: accepts it iff its image is the scanned one. */
  method CheckVersion(template: string, versions: Plan, height: nat, containers: seq<Container>) returns (accepts: bool)
    ensures accepts <==> NodeImage(containers) == ScanImage(template, versions, height)
  {
    var image := template;
    var k := 0;
    while k < |versions|
      invariant 0 <= k <= |versions|
      invariant forall j :: 0 <= j < k ==> versions[j].upgradeHeight <= height
      invariant image == if k == 0 then template else versions[k - 1].image
    {
      if height < versions[k].upgradeHeight {
        break;
      }
      image := versions[k].image;
      k := k + 1;
    }
    PassedIsUnique(versions, height, k);
    var podImage := "";
    for i := 0 to |containers|
      invariant podImage == NodeImage(containers[..i])
    {
      if containers[i].name == MAIN_CONTAINER {
        podImage := containers[i].image;
      }
      assert containers[..i + 1][..i] == containers[..i];
    }
    assert containers[..|containers|] == containers;
    accepts := podImage == image;
  }

  // ----- the pod that is built is the pod that is accepted

  /** One container is called node, as container names are unique within a pod. */
  predicate OneNode(cs: seq<Container>, n: nat) {
    n < |cs| && cs[n].name == MAIN_CONTAINER && forall j :: 0 <= j < |cs| && j != n ==> cs[j].name != MAIN_CONTAINER
  }

  lemma {:induction false} NodeImageAt(cs: seq<Container>, n: nat)
    requires OneNode(cs, n)
    ensures NodeImage(cs) == cs[n].image
  {
    if n < |cs| - 1 {
      NodeImageAt(cs[..|cs| - 1], n);
    }
  }

  /** What the node container of a built pod runs. */
  ghost function Runs(template: string, vs: Plan, reported: Option<nat>, override: string): string {
    if override != "" then override
    else if reported.Some? && Selected(vs, reported.value).Some? then
      MainImages(vs[Selected(vs, reported.value).value])[MAIN_CONTAINER]
    else template
  }

  lemma BuiltNodeImage(cs: seq<Container>, n: nat, vs: Plan, reported: Option<nat>, override: string)
    requires OneNode(cs, n)
    ensures NodeImage(Built(cs, vs, reported, override)) == Runs(cs[n].image, vs, reported, override)
  {
    var b := Built(cs, vs, reported, override);
    assert forall i :: 0 <= i < |cs| ==> b[i].name == cs[i].name;
    assert FirstOfName(cs, n);
    NodeImageAt(b, n);
  }

  /** A scan yields the template's image only below the first upgrade, and otherwise the selected version's. */
  lemma ScanImageIs(template: string, vs: Plan, h: nat)
    requires StrictlyAscending(vs)
    ensures Selected(vs, h) == ScanIndex(vs, h)
    ensures var r := Selected(vs, h); ScanImage(template, vs, h) == if r.Some? then vs[r.value].image else template
  {
    ScanIsBest(vs, h);
    BestIsUnique(vs, h, Selected(vs, h), ScanIndex(vs, h));
  }

  /** The chain's init container runs the version's image unless the version has an entry of its own for it. */
  lemma InitImageAt(cs: seq<Container>, v: ChainVersion, n: nat)
    requires n < |cs| && cs[n].name == "chain-init" && forall j :: 0 <= j < n ==> cs[j].name != "chain-init"
    ensures Reimaged(cs, InitImages(v))[n].image ==
      if "chain-init" in v.initContainers then v.initContainers["chain-init"] else v.image
  {
    assert FirstOfName(cs, n);
  }

  /** At its own upgrade height a version of a strictly ascending plan is the one selected and scanned. */
  lemma SelectedAtOwnHeight(vs: Plan, i: nat, template: string)
    requires StrictlyAscending(vs) && i < |vs|
    ensures Selected(vs, vs[i].upgradeHeight) == Some(i) && ScanImage(template, vs, vs[i].upgradeHeight) == vs[i].image
  {
    PassedIsUnique(vs, vs[i].upgradeHeight, i + 1);
    ScanImageIs(template, vs, vs[i].upgradeHeight);
  }

  /** checkVersion at height `h` accepts what Build makes for a node that reported `reported`. */
  ghost predicate Accepted(template: string, vs: Plan, reported: Option<nat>, override: string, h: nat) {
    Runs(template, vs, reported, override) == ScanImage(template, vs, h)
  }

  /** No version prescribes another image for the node container than its own. */
  ghost predicate NodeUntouched(vs: Plan) {
    forall i :: 0 <= i < |vs| && MAIN_CONTAINER in vs[i].containers ==> vs[i].containers[MAIN_CONTAINER] == vs[i].image
  }

  /** Every version runs `image`. */
  ghost predicate OnlyImage(vs: Plan, image: string) {
    forall i :: 0 <= i < |vs| ==> vs[i].image == image
  }

  lemma AcceptedIsVerdict(cs: seq<Container>, n: nat, vs: Plan, reported: Option<nat>, override: string, h: nat)
    requires OneNode(cs, n)
    ensures NodeImage(Built(cs, vs, reported, override)) == ScanImage(cs[n].image, vs, h) <==>
      Accepted(cs[n].image, vs, reported, override, h)
  {
    BuiltNodeImage(cs, n, vs, reported, override);
  }

  /**
   * Image agreement at equal heights: for a strictly ascending plan without an instance override, every pod built is
   * accepted, below the first upgrade included, iff no version prescribes another image for the node container.
   */
  lemma AcceptedExactly(template: string, vs: Plan)
    requires StrictlyAscending(vs)
    ensures NodeUntouched(vs) <==> forall h: nat :: Accepted(template, vs, Some(h), "", h)
  {
    if NodeUntouched(vs) {
      forall h: nat ensures Accepted(template, vs, Some(h), "", h) {
        ScanImageIs(template, vs, h);
      }
    }
    if forall h: nat :: Accepted(template, vs, Some(h), "", h) {
      forall i | 0 <= i < |vs| && MAIN_CONTAINER in vs[i].containers
        ensures vs[i].containers[MAIN_CONTAINER] == vs[i].image
      {
        SelectedAtOwnHeight(vs, i, template);
        assert Accepted(template, vs, Some(vs[i].upgradeHeight), "", vs[i].upgradeHeight);
      }
    }
  }

  /** An image override is accepted at every height iff it names what every version, and the template below them, runs. */
  lemma OverrideAcceptedExactly(template: string, vs: Plan, override: string)
    requires StrictlyAscending(vs) && override != ""
    ensures OnlyImage(vs, override) && (vs == [] || vs[0].upgradeHeight > 0 ==> template == override) <==>
      forall h: nat :: Accepted(template, vs, Some(h), override, h)
  {
    if OnlyImage(vs, override) && (vs == [] || vs[0].upgradeHeight > 0 ==> template == override) {
      forall h: nat ensures Accepted(template, vs, Some(h), override, h) {
        ScanImageIs(template, vs, h);
      }
    }
    if forall h: nat :: Accepted(template, vs, Some(h), override, h) {
      assert Accepted(template, vs, Some(0), override, 0);
      forall i | 0 <= i < |vs| ensures vs[i].image == override {
        SelectedAtOwnHeight(vs, i, template);
        assert Accepted(template, vs, Some(vs[i].upgradeHeight), override, vs[i].upgradeHeight);
      }
    }
  }

  /** A node that has not reported runs the template's image, accepted at every height iff every version runs it too. */
  lemma UnreportedAcceptedExactly(template: string, vs: Plan)
    requires StrictlyAscending(vs)
    ensures OnlyImage(vs, template) <==> forall h: nat :: Accepted(template, vs, None, "", h)
  {
    if forall h: nat :: Accepted(template, vs, None, "", h) {
      forall i | 0 <= i < |vs| ensures vs[i].image == template {
        SelectedAtOwnHeight(vs, i, template);
        assert Accepted(template, vs, None, "", vs[i].upgradeHeight);
      }
    }
  }
}
