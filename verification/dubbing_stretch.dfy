/**
 * Time-stretch planning of the dubbing engine (dubbing.py): the decomposition
 * of a tempo factor into FFmpeg `atempo` stages, each limited to [0.5, 2.0],
 * and the per-segment filter plan that forces a synthesized clip to the
 * length of its window.
 */
module Stretch {
  import opened Segments

  /** Bounds of one `atempo` stage. */
  const MinStage: real := 0.5
  const MaxStage: real := 2.0

  /** Shortest window a clip is fitted to. */
  const MinWindow: real := 0.15

  /** The combined tempo factor of a chain of stages. */
  function Product(stages: seq<real>): real {
    if stages == [] then 1.0 else stages[0] * Product(stages[1..])
  }

  lemma HalvingLowersFloor(r: real)
    requires r > MaxStage
    ensures 0 <= (r / 2.0).Floor < r.Floor
  {
    assert (r / 2.0).Floor as real <= r / 2.0;
    assert r.Floor as real > r - 1.0;
  }

  /** The stages emitted for a remaining factor `r`: halves of 2.0 while above 2.0, then the rest. */
  function ChainFrom(r: real): seq<real>
    decreases if r > MaxStage then r.Floor else 0
  {
    if r > MaxStage then
      HalvingLowersFloor(r);
      [MaxStage] + ChainFrom(r / 2.0)
    else [r]
  }

  /** The stage chain for a requested factor: the factor is first floored at 0.5. */
  function Chain(factor: real): seq<real> { ChainFrom(Max(MinStage, factor)) }

  /** The chain multiplies back to the factor it decomposes. */
  lemma {:induction false} ChainFromProduct(r: real)
    ensures Product(ChainFrom(r)) == r
    decreases if r > MaxStage then r.Floor else 0
  {
    if r > MaxStage {
      HalvingLowersFloor(r);
      ChainFromProduct(r / 2.0);
      assert ChainFrom(r)[1..] == ChainFrom(r / 2.0);
    }
  }

  /**
   * Shape of the chain: never empty, every stage but the last is exactly 2.0,
   * and the last one is the remaining factor, which lies in (lo, 2.0] for
   * any lower bound lo <= 1.0 below the starting factor.
   */
  lemma {:induction false} ChainFromShape(r: real, lo: real)
    requires lo < r && lo <= 1.0
    ensures |ChainFrom(r)| >= 1
    ensures forall i :: 0 <= i < |ChainFrom(r)| - 1 ==> ChainFrom(r)[i] == MaxStage
    ensures lo < ChainFrom(r)[|ChainFrom(r)| - 1] <= MaxStage
    ensures |ChainFrom(r)| == 1 <==> r <= MaxStage
    decreases if r > MaxStage then r.Floor else 0
  {
    if r > MaxStage {
      HalvingLowersFloor(r);
      ChainFromShape(r / 2.0, 1.0);
    }
  }

  /** Every stage of a chain started from r >= 0.5 lies in [0.5, 2.0]; from r > 1 in (1, 2.0]. */
  lemma ChainFromBounds(r: real, lo: real)
    requires lo < r && lo <= 1.0
    ensures forall i :: 0 <= i < |ChainFrom(r)| ==> lo < ChainFrom(r)[i] <= MaxStage
  {
    ChainFromShape(r, lo);
  }

  /**
   * The properties of `_cadeia_atempo`'s chain: it is never empty, every
   * stage lies in [0.5, 2.0], every stage but the last is exactly 2.0, the
   * stages multiply to the factor floored at 0.5, and a factor (so floored)
   * of at most 2.0 gives a single stage.
   */
  lemma ChainProperties(factor: real)
    ensures |Chain(factor)| >= 1
    ensures forall i :: 0 <= i < |Chain(factor)| ==> MinStage <= Chain(factor)[i] <= MaxStage
    ensures forall i :: 0 <= i < |Chain(factor)| - 1 ==> Chain(factor)[i] == MaxStage
    ensures Product(Chain(factor)) == Max(MinStage, factor)
    ensures |Chain(factor)| == 1 <==> Max(MinStage, factor) <= MaxStage
  {
    var r := Max(MinStage, factor);
    ChainFromProduct(r);
    ChainFromShape(r, 0.25);
    if r > MaxStage {
      ChainFromShape(r, 1.0);
    }
  }

  /**
   * `_cadeia_atempo`: the `atempo` stages for a total factor, built by the
   * source's halving loop.
   */
  method AtempoChain(factor: real) returns (stages: seq<real>)
    ensures stages == Chain(factor)
    ensures |stages| >= 1
    ensures forall i :: 0 <= i < |stages| ==> MinStage <= stages[i] <= MaxStage
    ensures forall i :: 0 <= i < |stages| - 1 ==> stages[i] == MaxStage
    ensures Product(stages) == Max(MinStage, factor)
    ensures |stages| == 1 <==> Max(MinStage, factor) <= MaxStage
  {
    var rest := Max(MinStage, factor);
    stages := [];
    while rest > MaxStage
      invariant stages + ChainFrom(rest) == Chain(factor)
      decreases rest.Floor
    {
      HalvingLowersFloor(rest);
      assert ChainFrom(rest) == [MaxStage] + ChainFrom(rest / 2.0);
      assert stages + ChainFrom(rest) == (stages + [MaxStage]) + ChainFrom(rest / 2.0);
      stages := stages + [MaxStage];
      rest := rest / 2.0;
    }
    assert ChainFrom(rest) == [rest];
    stages := stages + [rest];
    ChainProperties(factor);
  }

  /**
   * The filter of one segment, as data: the `atempo` stages (none when the
   * clip is not stretched), then `apad=pad_dur=padTo`, then `atrim=0:trimTo`.
   */
  datatype FitPlan = FitPlan(stretch: seq<real>, padTo: real, trimTo: real)

  /**
   * The filter choice of `_ajustar_segmento_para_janela` for a window of
   * `target` seconds and a probed clip length `measured` (0 when the probe failed).
   */
  function PlanFit(target: real, measured: real): (p: FitPlan)
    ensures p.padTo == p.trimTo == Max(MinWindow, target)
    ensures p.stretch != [] <==> measured > Max(MinWindow, target)
    ensures p.stretch != [] ==>
      && p.stretch == Chain(measured / Max(MinWindow, target))
      && Product(p.stretch) == measured / Max(MinWindow, target)
      && forall i :: 0 <= i < |p.stretch| ==> 1.0 < p.stretch[i] <= MaxStage
  {
    var window := Max(MinWindow, target);
    if measured <= 0.0 then FitPlan([], window, window)
    else if measured > window then
      var factor := measured / window;
      assert factor * window == measured;
      assert factor > 1.0;
      ChainFromProduct(factor);
      ChainFromBounds(factor, 1.0);
      FitPlan(Chain(factor), window, window)
    else FitPlan([], window, window)
  }

  /**
   * What the filter does to the length of a clip of `actual` seconds:
   * `atempo` divides it by the chain's factor, `apad=pad_dur=x` appends x
   * seconds of silence and `atrim=0:t` keeps at most the first t seconds.
   */
  function PlannedLength(actual: real, p: FitPlan): real
    requires Product(p.stretch) > 0.0
  {
    var stretched := actual / Product(p.stretch);
    Min(stretched + p.padTo, p.trimTo)
  }

  lemma DivideByQuotient(a: real, w: real)
    requires a > 0.0 && w > 0.0
    ensures a / (a / w) == w
  {
    var f := a / w;
    assert f * w == a;
    assert (w * f) / f == w;
  }

  /**
   * Every clip leaves the filter exactly as long as its (clamped) window,
   * whatever the probe said; and when the probe measured the clip, the
   * stretch alone already brings it to the window length.
   */
  lemma FittedLengthIsWindow(target: real, measured: real, actual: real)
    requires actual >= 0.0
    ensures Product(PlanFit(target, measured).stretch) > 0.0
    ensures PlannedLength(actual, PlanFit(target, measured)) == Max(MinWindow, target)
    ensures measured == actual && PlanFit(target, measured).stretch != [] ==>
      actual / Product(PlanFit(target, measured).stretch) == Max(MinWindow, target)
  {
    var p := PlanFit(target, measured);
    var window := Max(MinWindow, target);
    if p.stretch != [] {
      assert Product(p.stretch) == measured / window;
      assert measured / window > 0.0;
    }
    var f := Product(p.stretch);
    assert actual / f >= 0.0;
    if measured == actual && p.stretch != [] {
      DivideByQuotient(actual, window);
    }
  }
}
