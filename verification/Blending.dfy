/** The shift-based reference blend, and where a reference image settles when the scene stands
    still. */
module Blending {
  import opened Planes

  /** The power of two nearest to a blending percentage. */
  function DividerFor(percent: real): (k: nat)
    ensures 1 <= k <= 6
  {
    if percent < 2.34375 then 6
    else if percent < 4.6875 then 5
    else if percent < 9.375 then 4
    else if percent < 18.75 then 3
    else if percent < 37.5 then 2
    else 1
  }

  function Pow2(k: nat): nat
  {
    if k == 0 then 1 else 2 * Pow2(k - 1)
  }

  lemma Pow2Values(k: nat)
    requires k <= 6
    ensures Pow2(k) == if k == 0 then 1 else if k == 1 then 2 else if k == 2 then 4 else if k == 3 then 8
                       else if k == 4 then 16 else if k == 5 then 32 else 64
  {
    if k > 0 { Pow2Values(k - 1); }
  }

  /** The percentage of the scene that a divider blends in. */
  function Share(k: nat): real
    requires 1 <= k <= 6
  {
    Pow2Values(k);
    100.0 / (Pow2(k) as real)
  }

  function Off(percent: real, k: nat): real
    requires 1 <= k <= 6
  {
    if percent < Share(k) then Share(k) - percent else percent - Share(k)
  }

  /** The divider is the one whose share is nearest to the percentage, the larger share of two that
      are equally near. */
  lemma DividerIsNearest(percent: real, k: nat)
    requires 1 <= k <= 6
    ensures Off(percent, DividerFor(percent)) <= Off(percent, k)
    ensures Off(percent, DividerFor(percent)) == Off(percent, k) ==> DividerFor(percent) <= k
  {
    Shares();
  }

  lemma Shares()
    ensures Share(1) == 50.0 && Share(2) == 25.0 && Share(3) == 12.5
    ensures Share(4) == 6.25 && Share(5) == 3.125 && Share(6) == 1.5625
  {
  }

  /** Arithmetic right shift: division rounding down, for negative differences too. */
  function Shifted(d: int, k: nat): (q: int)
    requires k <= 6
    ensures q * Pow2(k) <= d < q * Pow2(k) + Pow2(k)
  {
    Pow2Values(k);
    d / Pow2(k)
  }

  lemma ShiftedFacts(d: int, k: nat)
    requires 1 <= k <= 6
    ensures 0 <= d ==> 0 <= Shifted(d, k) <= d && (Shifted(d, k) == 0 <==> d < Pow2(k))
    ensures d < 0 ==> d <= Shifted(d, k) < 0
  {
    Pow2Values(k);
  }

  /** ((scene - reference) >> divider) + reference */
  function BlendByte(reference: uint8, scene: uint8, k: nat): (r: uint8)
    requires 1 <= k <= 6
    ensures if reference <= scene then reference <= r <= scene else scene <= r < reference
    ensures r == reference <==> 0 <= scene - reference < Pow2(k)
    ensures (r - reference) * Pow2(k) <= scene - reference < (r - reference + 1) * Pow2(k)
  {
    ShiftedFacts(scene - reference, k);
    Pow2Values(k);
    Shifted(scene - reference, k) + reference
  }

  /** The reference after n frames of an unchanging scene byte. */
  function Reference(start: uint8, scene: uint8, k: nat, n: nat): uint8
    requires 1 <= k <= 6
    decreases n
  {
    if n == 0 then start else BlendByte(Reference(start, scene, k, n - 1), scene, k)
  }

  /** How far the reference can still move: the frames left are at most this many. */
  function Distance(reference: uint8, scene: uint8): nat
  {
    if reference <= scene then scene - reference else reference - scene
  }

  /** The reference never crosses the scene, and each frame either comes closer or has settled. */
  lemma EachFrameApproaches(start: uint8, scene: uint8, k: nat, n: nat)
    requires 1 <= k <= 6
    ensures
      var now, next := Reference(start, scene, k, n), Reference(start, scene, k, n + 1);
      && (now <= scene ==> now <= next <= scene) && (now >= scene ==> scene <= next <= now)
      && (next == now <==> 0 <= scene - now < Pow2(k))
      && (next != now ==> Distance(next, scene) < Distance(now, scene))
  {
  }

  lemma {:induction false} SideKept(start: uint8, scene: uint8, k: nat, n: nat)
    requires 1 <= k <= 6
    ensures start <= scene ==> start <= Reference(start, scene, k, n) <= scene
    ensures start >= scene ==> scene <= Reference(start, scene, k, n) <= start
  {
    if n > 0 { SideKept(start, scene, k, n - 1); }
  }

  lemma {:induction false} SettledOrCloser(start: uint8, scene: uint8, k: nat, n: nat)
    requires 1 <= k <= 6
    ensures
      var now := Reference(start, scene, k, n);
      0 <= scene - now < Pow2(k) || Distance(now, scene) + n <= Distance(start, scene)
  {
    if n > 0 {
      SettledOrCloser(start, scene, k, n - 1);
      EachFrameApproaches(start, scene, k, n - 1);
    }
  }

  /** After at most 255 frames the reference has settled: exactly on the scene when it came from
      above, and less than 2^divider short of it when it came from below. */
  lemma ReferenceSettles(start: uint8, scene: uint8, k: nat, n: nat)
    requires 1 <= k <= 6 && 255 <= n
    ensures start >= scene ==> Reference(start, scene, k, n) == scene
    ensures start <= scene ==> 0 <= scene - Reference(start, scene, k, n) < Pow2(k)
    ensures Reference(start, scene, k, n + 1) == Reference(start, scene, k, n)
  {
    SideKept(start, scene, k, n);
    SettledOrCloser(start, scene, k, n);
    Pow2Values(k);
    EachFrameApproaches(start, scene, k, n);
  }

  /** std_fastblend with its two static variables. */
  class FastBlend {
    var divider: nat
    var currentPercent: real

    ghost predicate Valid()
      reads this
    {
      currentPercent == 0.0 || divider == DividerFor(currentPercent)
    }

    constructor ()
      ensures Valid()
    {
      divider, currentPercent := 0, 0.0;
    }

    /** The divider for a percentage, worked out again only when that changes. */
    method ChooseDivider(percent: real)
      requires Valid() && 0.0 < percent
      modifies this
      ensures Valid() && currentPercent == percent && divider == DividerFor(percent)
    {
      if currentPercent != percent {
        divider := if percent < 2.34375 then 6
                   else if percent < 4.6875 then 5
                   else if percent < 9.375 then 4
                   else if percent < 18.75 then 3
                   else if percent < 37.5 then 2
                   else 1;
        currentPercent := percent;
      }
    }

    /** One turn of the unrolled loop: sixteen bytes. */
    method BlendTurn(col1: array<uint8>, col2: array<uint8>, result: array<uint8>, at: nat)
      requires 1 <= divider <= 6
      requires at + 16 <= col1.Length && at + 16 <= col2.Length && at + 16 <= result.Length
      requires result != col1 && result != col2
      modifies result
      ensures forall i :: at <= i < at + 16 ==> result[i] == BlendByte(col1[i], col2[i], divider)
      ensures forall i :: 0 <= i < result.Length && !(at <= i < at + 16) ==> result[i] == old(result[i])
    {
      for u := 0 to 16
        invariant forall i :: at <= i < at + u ==> result[i] == BlendByte(col1[i], col2[i], divider)
        invariant forall i :: 0 <= i < result.Length && !(at <= i < at + u) ==> result[i] == old(result[i])
      {
        result[at + u] := BlendByte(col1[at + u], col2[at + u], divider);
      }
    }

    /** Whole turns of sixteen bytes, so for a count that does not divide by sixteen the last one
        reads and writes up to fifteen bytes more, which the buffers have to hold. */
    method Blend(col1: array<uint8>, col2: array<uint8>, result: array<uint8>, count: nat, percent: real)
      requires Valid() && 0.0 < percent
      requires WholeTurns(count) <= col1.Length && WholeTurns(count) <= col2.Length && WholeTurns(count) <= result.Length
      requires result != col1 && result != col2
      modifies this, result
      ensures Valid() && currentPercent == percent
      ensures forall i :: 0 <= i < WholeTurns(count) ==> result[i] == BlendByte(col1[i], col2[i], DividerFor(percent))
      ensures forall i :: WholeTurns(count) <= i < result.Length ==> result[i] == old(result[i])
    {
      ChooseDivider(percent);
      var at := 0;
      while at < count
        invariant 0 <= at <= WholeTurns(count) && at % 16 == 0
        invariant divider == DividerFor(percent) && currentPercent == percent
        invariant forall i :: 0 <= i < at ==> result[i] == BlendByte(col1[i], col2[i], DividerFor(percent))
        invariant forall i :: at <= i < result.Length ==> result[i] == old(result[i])
      {
        TurnFits(at, count);
        BlendTurn(col1, col2, result, at);
        at := at + 16;
      }
      TurnsDone(at, count);
    }
  }

  /** Where the last turn of sixteen ends. */
  function WholeTurns(count: nat): nat
  {
    (count + 15) / 16 * 16
  }

  lemma TurnFits(at: nat, count: nat)
    requires at % 16 == 0 && at < count
    ensures at + 16 <= WholeTurns(count)
  {
  }

  lemma TurnsDone(at: nat, count: nat)
    requires at % 16 == 0 && count <= at <= WholeTurns(count)
    ensures at == WholeTurns(count) && count <= WholeTurns(count) < count + 16
  {
  }
}
