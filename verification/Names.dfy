/**
 * Kubernetes object names: `normalizeValue`, `trimMiddle` and `ToName`
 * (internal/kube/labels.go) and the per-ordinal names built from them
 * (internal/fullnode/labels.go, internal/fullnode/pvc_builder.go).
 *
 * The source works on bytes, so names are byte sequences here.
 */
module Names {
  newtype byte = x: int | 0 <= x < 256

  type Bytes = seq<byte>

  const DASH: byte := 45
  const DOT: byte := 46
  const NAME_LIMIT: nat := 253
  const NAME_PUNCTUATION: Bytes := [DASH, DOT]
  const PVC_PREFIX: Bytes := [112, 118, 99, DASH]

  predicate AlphaNum(b: byte) {
    97 <= b <= 122 || 65 <= b <= 90 || 48 <= b <= 57
  }

  predicate Digit(b: byte) {
    48 <= b <= 57
  }

  // ----- what the byte loops compute

  function Permitted(s: Bytes, allowed: Bytes): Bytes {
    if s == [] then []
    else
      var rest := Permitted(s[..|s| - 1], allowed);
      var b := s[|s| - 1];
      if AlphaNum(b) || b in allowed then rest + [b] else rest
  }

  function TrimLeft(s: Bytes, allowed: Bytes): Bytes {
    if s != [] && s[0] in allowed then TrimLeft(s[1..], allowed) else s
  }

  function TrimRight(s: Bytes, allowed: Bytes): Bytes {
    if s != [] && s[|s| - 1] in allowed then TrimRight(s[..|s| - 1], allowed) else s
  }

  /** Cuts the middle out, keeping limit/2 bytes on the left and the rest on the right. */
  function TrimMiddle(s: Bytes, limit: nat): (r: Bytes)
    ensures |r| <= limit
  {
    if |s| <= limit then s
    else s[..limit / 2] + s[|s| - (limit - limit / 2)..]
  }

  function Normalize(s: Bytes, limit: nat, allowed: Bytes): Bytes {
    TrimMiddle(TrimRight(TrimLeft(Permitted(s, allowed), allowed), allowed), limit)
  }

  function ToName(s: Bytes): Bytes {
    Normalize(s, NAME_LIMIT, NAME_PUNCTUATION)
  }

  // ----- the in-place byte loops

  /** `normalizeValue`: filters into the front of one buffer, then narrows the slice from both ends. */
  method NormalizeValue(val: Bytes, limit: nat, allowed: Bytes) returns (r: Bytes)
    ensures r == Normalize(val, limit, allowed)
  {
    var result := new byte[|val|](i requires 0 <= i < |val| => val[i]);
    var j := 0;
    for i := 0 to |val|
      invariant 0 <= j <= i
      invariant result[..j] == Permitted(val[..i], allowed)
    {
      assert val[..i + 1][..i] == val[..i];
      var c := val[i];
      if AlphaNum(c) || c in allowed {
        result[j] := c;
        j := j + 1;
      }
    }
    assert val[..|val|] == val;

    ghost var kept := result[..j];
    var lo, hi := 0, j;
    while lo < hi && result[lo] in allowed
      invariant 0 <= lo <= hi
      invariant TrimLeft(result[lo..hi], allowed) == TrimLeft(kept, allowed)
    {
      assert result[lo..hi][1..] == result[lo + 1..hi];
      lo := lo + 1;
    }
    while lo < hi && result[hi - 1] in allowed
      invariant lo <= hi <= j
      invariant TrimRight(result[lo..hi], allowed) == TrimRight(TrimLeft(kept, allowed), allowed)
    {
      assert result[lo..hi][..hi - lo - 1] == result[lo..hi - 1];
      hi := hi - 1;
    }
    r := SpliceMiddle(result[lo..hi], limit);
  }

  /** `trimMiddle`. */
  method SpliceMiddle(val: Bytes, limit: nat) returns (r: Bytes)
    ensures r == TrimMiddle(val, limit)
  {
    if |val| <= limit {
      return val;
    }
    var left, right := limit / 2, limit / 2;
    if limit % 2 != 0 {
      right := right + 1;
    }
    r := AppendTail(val, left, right);
  }

  /** `append(b[:left], b[len(b)-right:]...)` copies the tail forward inside b's own buffer. */
  method AppendTail(val: Bytes, left: nat, right: nat) returns (r: Bytes)
    requires left + right <= |val|
    ensures r == val[..left] + val[|val| - right..]
  {
    var b := new byte[|val|](i requires 0 <= i < |val| => val[i]);
    var from := |val| - right;
    for k := 0 to right
      invariant forall i :: 0 <= i < left ==> b[i] == val[i]
      invariant forall i :: left <= i < left + k ==> b[i] == val[from - left + i]
      invariant forall i :: left + k <= i < |val| ==> b[i] == val[i]
    {
      b[left + k] := b[from + k];
    }
    r := b[..left + right];
  }

  // ----- the shape of a normalised name

  predicate Clean(s: Bytes, allowed: Bytes) {
    forall i :: 0 <= i < |s| ==> AlphaNum(s[i]) || s[i] in allowed
  }

  /** Empty, or alphanumeric at both ends. */
  predicate SolidEnds(s: Bytes) {
    s != [] ==> AlphaNum(s[0]) && AlphaNum(s[|s| - 1])
  }

  predicate ValidName(s: Bytes) {
    |s| <= NAME_LIMIT && Clean(s, NAME_PUNCTUATION) && SolidEnds(s)
  }

  /** The filter works byte by byte. */
  lemma {:induction false} PermittedConcat(a: Bytes, b: Bytes, allowed: Bytes)
    ensures Permitted(a + b, allowed) == Permitted(a, allowed) + Permitted(b, allowed)
  {
    if b == [] {
      assert a + b == a;
    } else {
      PermittedConcat(a, b[..|b| - 1], allowed);
      assert (a + b)[..|a + b| - 1] == a + b[..|b| - 1];
    }
  }

  lemma PermittedByte(b: byte, allowed: Bytes)
    ensures Permitted([b], allowed) == if AlphaNum(b) || b in allowed then [b] else []
  {
    assert [b][..0] == [];
  }

  /** All bytes are allowed punctuation. */
  predicate Only(s: Bytes, allowed: Bytes) {
    forall i :: 0 <= i < |s| ==> s[i] in allowed
  }

  lemma {:induction false} TrimLeftDrops(s: Bytes, allowed: Bytes) returns (pre: Bytes)
    ensures s == pre + TrimLeft(s, allowed) && Only(pre, allowed)
    ensures TrimLeft(s, allowed) != [] ==> TrimLeft(s, allowed)[0] !in allowed
  {
    if s != [] && s[0] in allowed {
      pre := TrimLeftDrops(s[1..], allowed);
      pre := [s[0]] + pre;
    } else {
      pre := [];
    }
  }

  lemma {:induction false} TrimRightDrops(s: Bytes, allowed: Bytes) returns (post: Bytes)
    ensures s == TrimRight(s, allowed) + post && Only(post, allowed)
    ensures TrimRight(s, allowed) != [] ==> TrimRight(s, allowed)[|TrimRight(s, allowed)| - 1] !in allowed
  {
    if s != [] && s[|s| - 1] in allowed {
      post := TrimRightDrops(s[..|s| - 1], allowed);
      post := post + [s[|s| - 1]];
    } else {
      post := [];
    }
  }

  /**
   * What is kept: the permitted bytes without the punctuation at either end and, if that is too long, limit/2 bytes of
   * its left end and the rest from its right end.
   */
  lemma NormalizeExactly(s: Bytes, limit: nat, allowed: Bytes) returns (pre: Bytes, core: Bytes, post: Bytes)
    ensures Permitted(s, allowed) == pre + core + post && Only(pre, allowed) && Only(post, allowed)
    ensures core != [] ==> core[0] !in allowed && core[|core| - 1] !in allowed
    ensures |core| <= limit ==> Normalize(s, limit, allowed) == core
    ensures |core| > limit ==> var r := Normalize(s, limit, allowed);
      && |r| == limit && r[..limit / 2] == core[..limit / 2]
      && r[limit / 2..] == core[|core| - (limit - limit / 2)..]
  {
    var p := Permitted(s, allowed);
    pre := TrimLeftDrops(p, allowed);
    var rest := TrimLeft(p, allowed);
    post := TrimRightDrops(rest, allowed);
    core := TrimRight(rest, allowed);
    assert core != [] ==> core[0] == rest[0];
  }

  lemma {:induction false} PermittedIsClean(s: Bytes, allowed: Bytes)
    ensures Clean(Permitted(s, allowed), allowed)
  {
    if s != [] {
      PermittedIsClean(s[..|s| - 1], allowed);
    }
  }

  lemma {:induction false} PermittedKeepsClean(s: Bytes, allowed: Bytes)
    requires Clean(s, allowed)
    ensures Permitted(s, allowed) == s
  {
    if s != [] {
      PermittedKeepsClean(s[..|s| - 1], allowed);
      assert s == s[..|s| - 1] + [s[|s| - 1]];
    }
  }

  lemma {:induction false} TrimLeftSolid(s: Bytes, allowed: Bytes)
    requires Clean(s, allowed)
    ensures Clean(TrimLeft(s, allowed), allowed)
    ensures TrimLeft(s, allowed) != [] ==> AlphaNum(TrimLeft(s, allowed)[0])
  {
    if s != [] && s[0] in allowed {
      TrimLeftSolid(s[1..], allowed);
    }
  }

  lemma {:induction false} TrimRightSolid(s: Bytes, allowed: Bytes)
    requires Clean(s, allowed) && (s != [] ==> AlphaNum(s[0]))
    ensures Clean(TrimRight(s, allowed), allowed) && SolidEnds(TrimRight(s, allowed))
  {
    if s != [] && s[|s| - 1] in allowed {
      TrimRightSolid(s[..|s| - 1], allowed);
    }
  }

  /** Every result of `ToName` is a legal name: short enough, permitted bytes only, solid ends. */
  lemma ToNameIsValid(s: Bytes)
    ensures ValidName(ToName(s))
  {
    var kept := Permitted(s, NAME_PUNCTUATION);
    PermittedIsClean(s, NAME_PUNCTUATION);
    TrimLeftSolid(kept, NAME_PUNCTUATION);
    TrimRightSolid(TrimLeft(kept, NAME_PUNCTUATION), NAME_PUNCTUATION);
  }

  /** A legal name is left alone, and only legal names are: they are the fixed points of `ToName`. */
  lemma ToNameFixedPoints(s: Bytes)
    ensures ToName(s) == s <==> ValidName(s)
  {
    ToNameIsValid(s);
    if ValidName(s) {
      PermittedKeepsClean(s, NAME_PUNCTUATION);
    }
  }

  lemma ToNameIdempotent(s: Bytes)
    ensures ToName(ToName(s)) == ToName(s)
  {
    ToNameIsValid(s);
    ToNameFixedPoints(ToName(s));
  }

  // ----- per-ordinal names

  /** `%d` of a non-negative integer. */
  function Decimal(n: nat): (r: Bytes)
    ensures r != [] && forall i :: 0 <= i < |r| ==> Digit(r[i])
  {
    if n < 10 then [48 + n as byte] else Decimal(n / 10) + [48 + (n % 10) as byte]
  }

  function DecimalValue(s: Bytes): int {
    if s == [] then 0 else 10 * DecimalValue(s[..|s| - 1]) + (s[|s| - 1] as int - 48)
  }

  lemma {:induction false} DecimalRoundTrip(n: nat)
    ensures DecimalValue(Decimal(n)) == n
  {
    if n < 10 {
      assert Decimal(n)[..0] == [];
    } else {
      DecimalRoundTrip(n / 10);
      assert Decimal(n)[..|Decimal(n)| - 1] == Decimal(n / 10);
    }
  }

  lemma {:induction false} DecimalLength(n: nat, digits: nat)
    requires digits >= 1 && n < Pow10(digits)
    ensures |Decimal(n)| <= digits
  {
    if n >= 10 {
      assert Pow10(digits) == 10 * Pow10(digits - 1);
      DecimalLength(n / 10, digits - 1);
    }
  }

  function Pow10(k: nat): nat {
    if k == 0 then 1 else 10 * Pow10(k - 1)
  }

  /** Replica ordinals are int32. */
  predicate Ordinal(i: int) {
    0 <= i < 0x8000_0000
  }

  lemma OrdinalDigits(i: nat)
    requires Ordinal(i)
    ensures |Decimal(i)| <= 10
  {
    assert Pow10(10) == 10_000_000_000 by {
      assert Pow10(5) == 100_000;
    }
    DecimalLength(i, 10);
  }

  function AppName(crd: Bytes): Bytes {
    ToName(crd)
  }

  function InstanceName(crd: Bytes, ordinal: nat): Bytes {
    ToName(AppName(crd) + [DASH] + Decimal(ordinal))
  }

  function PvcName(crd: Bytes, ordinal: nat): Bytes {
    ToName(PVC_PREFIX + AppName(crd) + [DASH] + Decimal(ordinal))
  }

  /** What follows the last dash: the left inverse that recovers an ordinal from a name. */
  function AfterLastDash(s: Bytes): Bytes {
    if s == [] || s[|s| - 1] == DASH then []
    else AfterLastDash(s[..|s| - 1]) + [s[|s| - 1]]
  }

  lemma {:induction false} AfterLastDashOf(pre: Bytes, d: Bytes)
    requires forall i :: 0 <= i < |d| ==> Digit(d[i])
    requires pre == [] || pre[|pre| - 1] == DASH
    ensures AfterLastDash(pre + d) == d
  {
    if d == [] {
      assert pre + d == pre;
    } else {
      AfterLastDashOf(pre, d[..|d| - 1]);
      assert (pre + d)[..|pre + d| - 1] == pre + d[..|d| - 1];
    }
  }

  /** Cutting the middle out never reaches a short suffix or the byte before it. */
  lemma TrimMiddleKeepsTail(h: Bytes, d: Bytes) returns (pre: Bytes)
    requires h != [] && |d| <= 10
    ensures TrimMiddle(h + d, NAME_LIMIT) == pre + d
    ensures pre != [] && pre[|pre| - 1] == h[|h| - 1]
  {
    var t := h + d;
    if |t| <= NAME_LIMIT {
      return h;
    }
    var tail := h[|t| - 127..];
    assert t[|t| - 127..] == tail + d;
    pre := h[..126] + tail;
    assert t[..126] == h[..126];
  }

  /** A digit suffix survives normalisation, with the dash before it. */
  lemma SuffixSurvives(head: Bytes, d: Bytes)
    requires Clean(head, NAME_PUNCTUATION) && head != [] && AlphaNum(head[0])
    requires 1 <= |d| <= 10 && forall i :: 0 <= i < |d| ==> Digit(d[i])
    ensures AfterLastDash(ToName(head + [DASH] + d)) == d
  {
    var t := head + [DASH] + d;
    assert ToName(t) == TrimMiddle(t, NAME_LIMIT) by {
      assert t[0] == head[0] && t[|t| - 1] == d[|d| - 1];
      PermittedKeepsClean(t, NAME_PUNCTUATION);
    }
    var pre := TrimMiddleKeepsTail(head + [DASH], d);
    AfterLastDashOf(pre, d);
  }

  lemma LeadingDashDropped(d: Bytes)
    requires 1 <= |d| <= 10 && forall i :: 0 <= i < |d| ==> Digit(d[i])
    ensures ToName([DASH] + d) == d
  {
    var t := [DASH] + d;
    PermittedKeepsClean(t, NAME_PUNCTUATION);
    assert t[1..] == d;
    assert TrimLeft(t, NAME_PUNCTUATION) == TrimLeft(d, NAME_PUNCTUATION) == d;
    assert TrimRight(d, NAME_PUNCTUATION) == d;
  }

  lemma InstanceNameKeepsOrdinal(crd: Bytes, i: nat)
    requires Ordinal(i)
    ensures AfterLastDash(InstanceName(crd, i)) == Decimal(i)
  {
    var app, d := AppName(crd), Decimal(i);
    ToNameIsValid(crd);
    OrdinalDigits(i);
    if app == [] {
      assert app + [DASH] + d == [DASH] + d;
      LeadingDashDropped(d);
      AfterLastDashOf([], d);
      assert [] + d == d;
    } else {
      SuffixSurvives(app, d);
    }
  }

  lemma PvcNameKeepsOrdinal(crd: Bytes, i: nat)
    requires Ordinal(i)
    ensures AfterLastDash(PvcName(crd, i)) == Decimal(i)
  {
    ToNameIsValid(crd);
    OrdinalDigits(i);
    SuffixSurvives(PVC_PREFIX + AppName(crd), Decimal(i));
  }

  /** Pod names of one CosmosFullNode never collide, however long its own name is. */
  lemma InstanceNameInjective(crd: Bytes, i: nat, j: nat)
    requires Ordinal(i) && Ordinal(j)
    ensures InstanceName(crd, i) == InstanceName(crd, j) <==> i == j
  {
    InstanceNameKeepsOrdinal(crd, i);
    InstanceNameKeepsOrdinal(crd, j);
    DecimalRoundTrip(i);
    DecimalRoundTrip(j);
  }

  /** PVC names of one CosmosFullNode never collide either. */
  lemma PvcNameInjective(crd: Bytes, i: nat, j: nat)
    requires Ordinal(i) && Ordinal(j)
    ensures PvcName(crd, i) == PvcName(crd, j) <==> i == j
  {
    PvcNameKeepsOrdinal(crd, i);
    PvcNameKeepsOrdinal(crd, j);
    DecimalRoundTrip(i);
    DecimalRoundTrip(j);
  }

  /**
   * `NormalizeMetadata` re-normalises the name that `instanceName` already normalised, so the name used to
   * look up overrides before it and the name the pod ends up with are the same.
   */
  lemma NamesSurviveNormalizeMetadata(crd: Bytes, i: nat)
    ensures ToName(InstanceName(crd, i)) == InstanceName(crd, i)
    ensures ToName(PvcName(crd, i)) == PvcName(crd, i)
  {
    ToNameIdempotent(AppName(crd) + [DASH] + Decimal(i));
    ToNameIdempotent(PVC_PREFIX + AppName(crd) + [DASH] + Decimal(i));
  }
}
