/**
 * Growing volumes: `SignalPVCResize` and `calcNextCapacity` (internal/fullnode/pvc_auto_scaler.go) ask for a size,
 * `pvcResources` (internal/fullnode/pvc_builder.go) pads it by 2%, and the storage provider enlarges the volume.
 *
 * Sizes are exact numbers of bytes; a Go quantity's Value() rounds up to a whole byte.
 */
module Storage {
  import opened Common
  import opened Names

  function Ceil(x: real): (r: int)
    ensures r as real - 1.0 < x <= r as real
  {
    -((-x).Floor)
  }

  /** math.Round: to the nearest whole number, halves away from zero. */
  function Round(x: real): int {
    if x >= 0.0 then (x + 0.5).Floor else -((0.5 - x).Floor)
  }

  /** `IncreaseQuantity` as a percentage, as a quantity, or neither. */
  datatype Increase = Percent(percent: int) | Amount(size: real) | Malformed

  /** A maximum of zero is no maximum. */
  datatype AutoScale = AutoScale(trigger: int, increase: Increase, maxSize: real)

  datatype Usage = Usage(name: Bytes, percentUsed: int, capacity: real)

  /** So many percent of a whole number of bytes. */
  function Share(bytes: int, percent: int): int {
    Round(bytes as real * (percent as real / 100.0))
  }

  /** `calcNextCapacity`. */
  function NextCapacity(current: real, increase: Increase): Option<int> {
    match increase
    case Percent(p) => Some(Ceil(current) + Share(Ceil(current), p))
    case Amount(a) => Some(Ceil(current) + Ceil(a))
    case Malformed => None
  }

  datatype Verdict = Silent | Invalid | Ask(size: real)

  /** What one PVC's usage leads to, given the size already requested for it. */
  function Judge(spec: AutoScale, u: Usage, requested: Option<real>): Verdict {
    if u.percentUsed < spec.trigger then Silent
    else
      var next := NextCapacity(u.capacity, spec.increase);
      if next.None? then Invalid
      else if requested.Some? && Ceil(requested.value) == next.value then Silent
      else if spec.maxSize != 0.0 && u.capacity >= spec.maxSize then Silent
      else if spec.maxSize != 0.0 && next.value as real >= spec.maxSize then Ask(spec.maxSize)
      else Ask(next.value as real)
  }

  function Prior(sizes: map<Bytes, real>, name: Bytes): Option<real> {
    if name in sizes then Some(sizes[name]) else None
  }

  /** The requests of a list of usages; a later one for the same PVC wins. */
  function Patches(spec: AutoScale, sizes: map<Bytes, real>, results: seq<Usage>): map<Bytes, real> {
    if results == [] then map[]
    else
      var before := Patches(spec, sizes, results[..|results| - 1]);
      var u := results[|results| - 1];
      var v := Judge(spec, u, Prior(sizes, u.name));
      if v.Ask? then before[u.name := v.size] else before
  }

  class AutoScaleStatus {
    var sizes: map<Bytes, real>

    constructor (sizes: map<Bytes, real>)
      ensures this.sizes == sizes
    {
      this.sizes := sizes;
    }

    /** `SignalPVCResize`; the status update takes effect if `applied` and is acknowledged if `acked`. */
    method SignalPVCResize(spec: AutoScale, results: seq<Usage>, applied: bool, acked: bool)
      returns (patched: bool, err: bool)
      requires acked ==> applied
      modifies this
      ensures var patches := Patches(spec, old(sizes), results);
        && (patched <==> patches != map[])
        && sizes == (if patched && applied then old(sizes) + patches else old(sizes))
        && (err <==> (patched && !acked) || exists i :: 0 <= i < |results| && Judge(spec, results[i], Prior(old(sizes), results[i].name)).Invalid?)
    {
      err := false;
      var patches: map<Bytes, real> := map[];
      for i := 0 to |results|
        invariant patches == Patches(spec, sizes, results[..i]) && sizes == old(sizes)
        invariant err <==> exists j :: 0 <= j < i && Judge(spec, results[j], Prior(sizes, results[j].name)).Invalid?
      {
        assert results[..i + 1][..i] == results[..i];
        var pvc := results[i];
        if pvc.percentUsed < spec.trigger {
          continue;
        }
        var next := NextCapacity(pvc.capacity, spec.increase);
        if next.None? {
          err := true;
          continue;
        }
        if pvc.name in sizes && Ceil(sizes[pvc.name]) == next.value {
          continue;
        }
        var newSize := next.value as real;
        if spec.maxSize != 0.0 {
          if pvc.capacity >= spec.maxSize {
            continue;
          }
          if newSize >= spec.maxSize {
            newSize := spec.maxSize;
          }
        }
        patches := patches[pvc.name := newSize];
      }
      assert results[..|results|] == results;
      if patches == map[] {
        return false, err;
      }
      patched := true;
      if applied {
        sizes := sizes + patches;
      }
      err := err || !acked;
    }
  }

  // ----- what is requested, without the loop

  /** The bytes an increase adds to a capacity of `bytes`: a percentage to the nearest whole, halves away from zero. */
  predicate Adds(increase: Increase, bytes: int, n: int) {
    match increase
    case Percent(p) =>
      var off := 100 * n - p * bytes;
      -50 <= off <= 50 && (off == 50 ==> p * bytes >= 0) && (off == -50 ==> p * bytes < 0)
    case Amount(a) => n as real - 1.0 < a <= n as real
    case Malformed => false
  }

  /** Full enough, below any maximum, and not asked for already. */
  predicate Wants(spec: AutoScale, u: Usage, pending: Option<real>, n: int) {
    && u.percentUsed >= spec.trigger && Adds(spec.increase, Ceil(u.capacity), n)
    && (pending.Some? ==> Ceil(pending.value) != Ceil(u.capacity) + n)
    && (spec.maxSize != 0.0 ==> u.capacity < spec.maxSize)
  }

  /** The smaller of the new capacity and any maximum. */
  function SizeWanted(spec: AutoScale, u: Usage, n: int): real {
    var next := (Ceil(u.capacity) + n) as real;
    if spec.maxSize != 0.0 && spec.maxSize < next then spec.maxSize else next
  }

  lemma RoundHundredths(x: int, n: int)
    ensures Round(x as real / 100.0) == n <==>
      -50 <= 100 * n - x <= 50 && (100 * n - x == 50 ==> x >= 0) && (100 * n - x == -50 ==> x < 0)
  {
    var y := x as real / 100.0;
    assert 100.0 * y == x as real;
    if x >= 0 {
      assert Round(y) as real <= y + 0.5 < Round(y) as real + 1.0;
    } else {
      assert -Round(y) as real <= 0.5 - y < -Round(y) as real + 1.0;
    }
  }

  lemma RealProduct(a: int, b: int)
    ensures (a * b) as real == a as real * b as real
  {
  }

  lemma ShareAdds(bytes: int, p: int, n: int)
    ensures Share(bytes, p) == n <==> Adds(Percent(p), bytes, n)
  {
    RealProduct(p, bytes);
    assert bytes as real * (p as real / 100.0) == (p * bytes) as real / 100.0;
    RoundHundredths(p * bytes, n);
  }

  /** The capacity asked for is the current one, in whole bytes, and what the increase adds. */
  lemma NextAdds(current: real, increase: Increase, n: int)
    ensures NextCapacity(current, increase) == Some(Ceil(current) + n) <==> Adds(increase, Ceil(current), n)
  {
    match increase
    case Percent(p) =>
      ShareAdds(Ceil(current), p, n);
    case Amount(a) =>
    case Malformed =>
  }

  /** One usage asks iff it wants to, for the size wanted; it is an error iff it is full and the increase is malformed. */
  lemma JudgeMeans(spec: AutoScale, u: Usage, pending: Option<real>)
    ensures Judge(spec, u, pending).Ask? <==> exists n :: Wants(spec, u, pending, n)
    ensures forall n :: Wants(spec, u, pending, n) ==> Judge(spec, u, pending) == Ask(SizeWanted(spec, u, n))
    ensures Judge(spec, u, pending).Invalid? <==> u.percentUsed >= spec.trigger && spec.increase.Malformed?
  {
    var next := NextCapacity(u.capacity, spec.increase);
    forall n ensures Adds(spec.increase, Ceil(u.capacity), n) <==> next == Some(Ceil(u.capacity) + n) {
      NextAdds(u.capacity, spec.increase, n);
    }
    if Judge(spec, u, pending).Ask? {
      assert Wants(spec, u, pending, next.value - Ceil(u.capacity));
    }
  }

  /** Usage `i` is one of the claim and wants `n` more bytes. */
  ghost predicate WantsAt(spec: AutoScale, sizes: map<Bytes, real>, results: seq<Usage>, name: Bytes, i: int, n: int) {
    0 <= i < |results| && results[i].name == name && Wants(spec, results[i], Prior(sizes, name), n)
  }

  /** A claim is patched iff some usage of it wants to grow, and then as the last such usage wants. */
  lemma {:induction false} PatchedExactly(spec: AutoScale, sizes: map<Bytes, real>, results: seq<Usage>, name: Bytes)
    ensures name in Patches(spec, sizes, results) <==> exists i, n :: WantsAt(spec, sizes, results, name, i, n)
    ensures name in Patches(spec, sizes, results) ==>
      exists i, n :: WantsAt(spec, sizes, results, name, i, n) &&
        Patches(spec, sizes, results)[name] == SizeWanted(spec, results[i], n) &&
        forall j, m :: WantsAt(spec, sizes, results, name, j, m) ==> j <= i
  {
    if results != [] {
      var front, u := results[..|results| - 1], results[|results| - 1];
      PatchedExactly(spec, sizes, front, name);
      JudgeMeans(spec, u, Prior(sizes, u.name));
      assert forall i, n :: 0 <= i < |front| ==> (WantsAt(spec, sizes, front, name, i, n) <==> WantsAt(spec, sizes, results, name, i, n));
      var v := Judge(spec, u, Prior(sizes, u.name));
      if u.name == name && v.Ask? {
        var n :| Wants(spec, u, Prior(sizes, name), n);
        assert WantsAt(spec, sizes, results, name, |results| - 1, n);
      } else if name in Patches(spec, sizes, front) {
        var i, n :| WantsAt(spec, sizes, front, name, i, n) && Patches(spec, sizes, front)[name] == SizeWanted(spec, front[i], n) &&
          forall j, m :: WantsAt(spec, sizes, front, name, j, m) ==> j <= i;
        assert WantsAt(spec, sizes, results, name, i, n);
      }
    }
  }

  // ----- the request built from it

  /** snapshotGrowthFactor: 102 with two decimal places. */
  function Padded(size: real): real {
    size * 1.02
  }

  /** The storage request of `pvcResources`, without a data source. */
  function Request(template: real, requested: Option<real>, existing: real): real {
    var scaled := if requested.Some? && Padded(requested.value) > template then Padded(requested.value) else template;
    if existing > scaled then existing else scaled
  }

  /** It is the largest of the template, what the volume has, and 102 hundredths of what was requested. */
  lemma RequestIsLargest(template: real, requested: Option<real>, existing: real)
    ensures var r := Request(template, requested, existing);
      && r >= existing && r >= template && (requested.Some? ==> 100.0 * r >= 102.0 * requested.value)
      && (r == existing || r == template || (requested.Some? && 100.0 * r == 102.0 * requested.value))
  {
  }

  // ----- runs of one volume

  datatype Volume = Volume(capacity: real, requested: Option<real>)

  /** Clean is the fullnode dropping the request from its status. */
  datatype Event = Signal(percentUsed: int) | Resize | Clean

  /** How large a volume the provider makes for a request: at least as large, and more for more. */
  ghost predicate Provider(provide: real -> real) {
    (forall q :: provide(q) >= q) && (forall q, r :: q <= r ==> provide(q) <= provide(r))
  }

  /** A volume is only touched by a request above its capacity. */
  function Next(template: real, spec: AutoScale, provide: real -> real, v: Volume, e: Event): Volume {
    match e
    case Signal(p) =>
      var j := Judge(spec, Usage([], p, v.capacity), v.requested);
      if j.Ask? then v.(requested := Some(j.size)) else v
    case Resize =>
      var q := Request(template, v.requested, v.capacity);
      if q > v.capacity then v.(capacity := provide(q)) else v
    case Clean => v.(requested := None)
  }

  ghost predicate Run(template: real, spec: AutoScale, provide: real -> real, vs: seq<Volume>, es: seq<Event>) {
    |vs| == |es| + 1 && forall i :: 0 <= i < |es| ==> vs[i + 1] == Next(template, spec, provide, vs[i], es[i])
  }

  function Growths(vs: seq<Volume>): nat {
    if |vs| <= 1 then 0
    else Growths(vs[..|vs| - 1]) + if vs[|vs| - 1].capacity > vs[|vs| - 2].capacity then 1 else 0
  }

  /** The most a volume can come to: what it began with, or what the provider makes of the template or the padded cap. */
  function Limit(template: real, cap: real, provide: real -> real, initial: real): real {
    var largest := if template >= Padded(cap) then template else Padded(cap);
    if initial >= provide(largest) then initial else provide(largest)
  }

  /** The maximum, or a larger request that was pending when it was set. */
  function Cap(spec: AutoScale, v: Volume): real {
    if v.requested.Some? && v.requested.value > spec.maxSize then v.requested.value else spec.maxSize
  }

  ghost predicate Bounded(template: real, cap: real, provide: real -> real, initial: real, v: Volume) {
    && initial <= v.capacity <= Limit(template, cap, provide, initial)
    && (v.requested.Some? ==> v.requested.value <= cap)
  }

  lemma StepStaysBounded(template: real, spec: AutoScale, cap: real, provide: real -> real, initial: real, v: Volume, e: Event)
    requires Provider(provide) && 0.0 < spec.maxSize <= cap && Bounded(template, cap, provide, initial, v)
    ensures Bounded(template, cap, provide, initial, Next(template, spec, provide, v, e))
    ensures Next(template, spec, provide, v, e).capacity >= v.capacity
  {
  }

  /** Capacity never shrinks, with or without a maximum. */
  lemma {:induction false} NeverShrinks(template: real, spec: AutoScale, provide: real -> real, vs: seq<Volume>, es: seq<Event>,
                                        i: nat, j: nat)
    requires Provider(provide) && Run(template, spec, provide, vs, es) && i <= j < |vs|
    ensures vs[i].capacity <= vs[j].capacity
  {
    if i < j {
      NeverShrinks(template, spec, provide, vs, es, i, j - 1);
      var v := vs[j - 1];
      assert provide(Request(template, v.requested, v.capacity)) >= Request(template, v.requested, v.capacity);
    }
  }

  /** Capacity stays within the larger of where it began and what the template or 1.02 times the maximum comes to. */
  lemma {:induction false} StaysBounded(template: real, spec: AutoScale, provide: real -> real, vs: seq<Volume>, es: seq<Event>,
                                        n: nat)
    requires Provider(provide) && Run(template, spec, provide, vs, es) && n < |vs|
    requires spec.maxSize > 0.0
    ensures Bounded(template, Cap(spec, vs[0]), provide, vs[0].capacity, vs[n])
  {
    if n == 0 {
      assert provide(template) >= template;
    } else {
      StaysBounded(template, spec, provide, vs, es, n - 1);
      StepStaysBounded(template, spec, Cap(spec, vs[0]), provide, vs[0].capacity, vs[n - 1], es[n - 1]);
    }
  }

  // ----- finitely many growth steps

  /** What one signal adds at the smallest capacity. */
  function Increment(spec: AutoScale, initial: real): int {
    var next := NextCapacity(initial, spec.increase);
    if next.Some? then next.value - Ceil(initial) else 0
  }

  lemma CeilMonotone(a: real, b: real)
    requires a <= b
    ensures Ceil(a) <= Ceil(b)
  {
  }

  lemma RoundMonotone(a: real, b: real)
    requires a <= b
    ensures Round(a) <= Round(b)
  {
  }

  lemma ScaleMonotone(a: real, b: real, p: real)
    requires a <= b && p >= 0.0
    ensures a * p <= b * p
  {
  }

  lemma ShareNotPositive(c: int, percent: int)
    requires c >= 0 && percent < 0
    ensures Share(c, percent) <= 0
  {
  }

  lemma ShareMonotone(c: int, d: int, percent: int)
    requires c <= d && percent >= 0
    ensures Share(c, percent) <= Share(d, percent)
  {
    var p := percent as real / 100.0;
    ScaleMonotone(c as real, d as real, p);
    RoundMonotone(c as real * p, d as real * p);
  }

  /** A later signal adds at least as much. */
  lemma IncrementGrows(spec: AutoScale, initial: real, capacity: real)
    requires 0.0 <= initial <= capacity && Increment(spec, initial) >= 1
    ensures var next := NextCapacity(capacity, spec.increase);
      next.Some? && next.value as real >= capacity + Increment(spec, initial) as real
  {
    CeilMonotone(initial, capacity);
    if spec.increase.Percent? {
      if spec.increase.percent < 0 {
        ShareNotPositive(Ceil(initial), spec.increase.percent);
      } else {
        ShareMonotone(Ceil(initial), Ceil(capacity), spec.increase.percent);
      }
    }
  }

  /** A request that still enlarges the volume was made below the maximum and adds a whole increment or reaches it. */
  ghost predicate Aligned(spec: AutoScale, step: int, v: Volume) {
    v.requested.Some? && Padded(v.requested.value) > v.capacity ==>
      v.capacity < spec.maxSize && (v.requested.value >= spec.maxSize || v.requested.value >= v.capacity + step as real)
  }

  function Flag(b: bool): int {
    if b then 1 else 0
  }

  /** The steps that need no increment: one each for the template, the maximum and a request `pending` at the start. */
  ghost function Excused(template: real, spec: AutoScale, step: int, pending: bool, v: Volume): int {
    Flag(v.capacity >= template) + Flag(v.capacity >= spec.maxSize) + Flag(pending && Aligned(spec, step, v))
  }

  /** Every other growth is paid for by an increment. */
  ghost predicate Counted(template: real, spec: AutoScale, step: int, pending: bool, initial: real, v: Volume, growths: int) {
    && (pending || Aligned(spec, step, v))
    && ((growths - Excused(template, spec, step, pending, v)) * step) as real <= v.capacity - initial
  }

  lemma StepStaysAligned(template: real, spec: AutoScale, provide: real -> real, initial: real, v: Volume, e: Event)
    requires Provider(provide) && spec.maxSize > 0.0 && 0.0 <= initial <= v.capacity && Increment(spec, initial) >= 1
    requires Aligned(spec, Increment(spec, initial), v)
    ensures Aligned(spec, Increment(spec, initial), Next(template, spec, provide, v, e))
  {
    match e
    case Signal(_) =>
      IncrementGrows(spec, initial, v.capacity);
    case Resize =>
      var q := Request(template, v.requested, v.capacity);
      assert provide(q) >= q;
    case Clean =>
  }

  /** One growth step adds an increment, or is the one that reaches the template or the maximum. */
  lemma GrowthIsPaid(template: real, spec: AutoScale, provide: real -> real, step: int, v: Volume, e: Event)
    requires Provider(provide) && spec.maxSize > 0.0 && step >= 1 && v.capacity >= 0.0 && Aligned(spec, step, v)
    requires Next(template, spec, provide, v, e).capacity > v.capacity
    ensures var c := Next(template, spec, provide, v, e).capacity;
      || c >= v.capacity + step as real
      || (v.capacity < template && c >= template)
      || (v.capacity < spec.maxSize && c >= spec.maxSize)
  {
  }

  lemma Product(a: int, b: int, step: int)
    requires a <= b && step >= 0
    ensures a * step <= b * step
  {
  }

  lemma CountOneMore(k: int, f: int, f': int, step: int)
    requires step >= 1 && f <= f'
    ensures (k - f') * step <= (k - f) * step
    ensures (k + 1 - f') * step <= (k - f) * step + step
    ensures f < f' ==> (k + 1 - f') * step <= (k - f) * step
  {
    Product(k - f', k - f, step);
    if f < f' {
      Product(k + 1 - f', k - f, step);
    }
  }

  lemma StepStaysCounted(template: real, spec: AutoScale, provide: real -> real, pending: bool, initial: real, v: Volume, e: Event,
                         growths: int)
    requires Provider(provide) && spec.maxSize > 0.0 && 0.0 <= initial <= v.capacity && Increment(spec, initial) >= 1
    requires Counted(template, spec, Increment(spec, initial), pending, initial, v, growths)
    ensures var n := Next(template, spec, provide, v, e);
      Counted(template, spec, Increment(spec, initial), pending, initial, n, growths + Flag(n.capacity > v.capacity))
  {
    var n, step := Next(template, spec, provide, v, e), Increment(spec, initial);
    var q := Request(template, v.requested, v.capacity);
    assert provide(q) >= q;
    if Aligned(spec, step, v) {
      StepStaysAligned(template, spec, provide, initial, v, e);
      if n.capacity > v.capacity {
        GrowthIsPaid(template, spec, provide, step, v, e);
      }
    }
    CountOneMore(growths, Excused(template, spec, step, pending, v), Excused(template, spec, step, pending, n), step);
  }

  lemma {:induction false} RunStaysCounted(template: real, spec: AutoScale, provide: real -> real, vs: seq<Volume>, es: seq<Event>,
                                           n: nat)
    requires Provider(provide) && Run(template, spec, provide, vs, es) && n < |vs|
    requires spec.maxSize > 0.0 && vs[0].capacity >= 0.0 && Increment(spec, vs[0].capacity) >= 1
    ensures var initial := vs[0].capacity;
      var step := Increment(spec, initial);
      Counted(template, spec, step, !Aligned(spec, step, vs[0]), initial, vs[n], Growths(vs[..n + 1]))
  {
    var step := Increment(spec, vs[0].capacity);
    var pending := !Aligned(spec, step, vs[0]);
    if n == 0 {
      Product(-Excused(template, spec, step, pending, vs[0]), 0, step);
    } else {
      RunStaysCounted(template, spec, provide, vs, es, n - 1);
      NeverShrinks(template, spec, provide, vs, es, 0, n - 1);
      StepStaysCounted(template, spec, provide, pending, vs[0].capacity, vs[n - 1], es[n - 1], Growths(vs[..n]));
      assert vs[..n + 1][..n] == vs[..n];
    }
  }

  /**
   * With a maximum and a positive increment a volume grows only finitely often: apart from two steps, or three if a
   * request was pending at the start, each one adds at least the first increment, and the total is bounded.
   */
  lemma FinitelyManyGrowths(template: real, spec: AutoScale, provide: real -> real, vs: seq<Volume>, es: seq<Event>)
    requires Provider(provide) && Run(template, spec, provide, vs, es)
    requires spec.maxSize > 0.0 && vs[0].capacity >= 0.0 && Increment(spec, vs[0].capacity) >= 1
    ensures var initial, spare := vs[0].capacity, if vs[0].requested.None? then 2 else 3;
      ((Growths(vs) - spare) * Increment(spec, initial)) as real <= Limit(template, Cap(spec, vs[0]), provide, initial) - initial
  {
    var n := |vs| - 1;
    var step := Increment(spec, vs[0].capacity);
    RunStaysCounted(template, spec, provide, vs, es, n);
    StaysBounded(template, spec, provide, vs, es, n);
    assert vs[..n + 1] == vs;
    var spare := if vs[0].requested.None? then 2 else 3;
    Product(Growths(vs) - spare, Growths(vs) - Excused(template, spec, step, !Aligned(spec, step, vs[0]), vs[n]), step);
  }

  /** The bound is attained: a volume whose next size is capped ends at 1.02 times the maximum, not at the maximum. */
  lemma CapIsPadded(template: real, spec: AutoScale, provide: real -> real, v: Volume, percentUsed: int)
    requires Provider(provide) && 0.0 < v.capacity < spec.maxSize && template <= Padded(spec.maxSize)
    requires percentUsed >= spec.trigger && v.requested.None?
    requires var next := NextCapacity(v.capacity, spec.increase); next.Some? && next.value as real >= spec.maxSize
    ensures var asked := Next(template, spec, provide, v, Signal(percentUsed));
      && asked.requested == Some(spec.maxSize)
      && Next(template, spec, provide, asked, Resize).capacity == provide(Padded(spec.maxSize)) > spec.maxSize
  {
  }

  // ----- the test for "already requested" looks at the size before capping

  /** Right after a request, at unchanged capacity, the next signal is silent iff the request was not cut down. */
  lemma RepeatedSignal(spec: AutoScale, u: Usage, requested: Option<real>)
    requires Judge(spec, u, requested).Ask?
    ensures var next := NextCapacity(u.capacity, spec.increase).value;
      var again := Judge(spec, u, Some(Judge(spec, u, requested).size));
      && (again.Silent? <==> spec.maxSize == 0.0 || next <= Ceil(spec.maxSize))
      && (!again.Silent? ==> again == Ask(spec.maxSize))
  {
  }
}
