/**
 * One step of depth- and slope-dependent hillslope diffusion in the style of
 * Johnstone and Hilley (2014), as values: each stage of the update is a
 * function on node and link arrays, and `SoilFluxStep` chains the six stages
 * in the order the component runs them. The lemmas state what a step
 * guarantees about soil depth, bedrock, topography and soil flux.
 */
module HillslopeFlux {
  import opened LandlabGrid

  /** The fields the step writes: three node arrays and one link array. */
  datatype Fields = Fields(
    elevation: seq<real>,   // topographic__elevation
    soilDepth: seq<real>,   // soil__depth
    bedrock: seq<real>,     // bedrock__elevation
    soilFlux: seq<real>)    // soil__flux

  predicate Fits(g: Grid, f: Fields) {
    && |f.elevation| == g.NumNodes()
    && |f.soilDepth| == g.NumNodes()
    && |f.bedrock| == g.NumNodes()
    && |f.soilFlux| == g.NumLinks()
  }

  /** What the model needs of the exponential: it maps x <= 0 into (0, 1]. */
  ghost predicate DecaysOnNonPositive(exp: real -> real) {
    forall x: real :: x <= 0.0 ==> 0.0 < exp(x) <= 1.0
  }

  function Abs(x: real): (r: real) { if x < 0.0 then -x else x }

  // ---------------------------------------------------------------------
  // The stages
  // ---------------------------------------------------------------------

  /** Stage 1: soil depth at every node is elevation minus bedrock. */
  function ResetDepth(elevation: seq<real>, bedrock: seq<real>): (depth: seq<real>)
    requires |elevation| == |bedrock|
    ensures |depth| == |elevation|
  {
    seq(|elevation|, i requires 0 <= i < |elevation| => elevation[i] - bedrock[i])
  }

  /** Soil depth on each link, taken from its higher end node. */
  function DepthAtLinks(g: Grid, elevation: seq<real>, depth: seq<real>): (h: seq<real>)
    ensures |h| == g.NumLinks()
  {
    seq(g.NumLinks(), l requires 0 <= l < g.NumLinks() => g.valueAtMaxNodeToLink(elevation, depth, l))
  }

  /** Topographic gradient on each link. */
  function GradAtLinks(g: Grid, elevation: seq<real>): (s: seq<real>)
    ensures |s| == g.NumLinks()
  {
    seq(g.NumLinks(), l requires 0 <= l < g.NumLinks() => g.gradAtLink(elevation, l))
  }

  /** Stage 2a: the slope is forced to zero on inactive links. */
  function ZeroInactive(g: Grid, slope: seq<real>): (s: seq<real>)
    requires |slope| == g.NumLinks()
    ensures |s| == |slope|
  {
    seq(|slope|, l requires 0 <= l < |slope| => if g.IsInactive(l) then 0.0 else slope[l])
  }

  /** The transport law q = -K S H* (1 - exp(-H / H*)) on one link. */
  function Flux(k: real, hStar: real, exp: real -> real, slope: real, hLink: real): (q: real)
    requires hStar != 0.0
  {
    -k * slope * hStar * (1.0 - exp(-hLink / hStar))
  }

  /** Stage 2b: the transport law on every link. */
  function LinkFluxes(k: real, hStar: real, exp: real -> real, slope: seq<real>, hLink: seq<real>): (q: seq<real>)
    requires hStar != 0.0 && |slope| == |hLink|
    ensures |q| == |slope|
  {
    seq(|slope|, l requires 0 <= l < |slope| => Flux(k, hStar, exp, slope[l], hLink[l]))
  }

  /** Divergence of the link flux at each node. */
  function FluxDivergence(g: Grid, flux: seq<real>): (d: seq<real>)
    ensures |d| == g.NumNodes()
  {
    seq(g.NumNodes(), i requires 0 <= i < g.NumNodes() => g.fluxDivAtNode(flux, i))
  }

  /** Stage 3: core nodes gain (production - divergence) * dt of soil. */
  function AddSoilChange(g: Grid, depth: seq<real>, production: seq<real>, dqdx: seq<real>, dt: real): (h: seq<real>)
    requires |depth| == |production| == |dqdx| == g.NumNodes()
    ensures |h| == |depth|
  {
    seq(|depth|, i requires 0 <= i < |depth| =>
      if g.IsCore(i) then depth[i] + (production[i] - dqdx[i]) * dt else depth[i])
  }

  /** Stage 4: negative soil depth becomes zero, at every node. */
  function ClampNegative(depth: seq<real>): (h: seq<real>)
    ensures |h| == |depth|
  {
    seq(|depth|, i requires 0 <= i < |depth| => if depth[i] < 0.0 then 0.0 else depth[i])
  }

  /** Stage 5: bedrock at core nodes is lowered by production * dt. */
  function LowerBedrock(g: Grid, bedrock: seq<real>, production: seq<real>, dt: real): (b: seq<real>)
    requires |bedrock| == |production| == g.NumNodes()
    ensures |b| == |bedrock|
  {
    seq(|bedrock|, i requires 0 <= i < |bedrock| =>
      if g.IsCore(i) then bedrock[i] - production[i] * dt else bedrock[i])
  }

  /** Stage 6: topography at core nodes is soil depth plus bedrock. */
  function RebuildElevation(g: Grid, elevation: seq<real>, depth: seq<real>, bedrock: seq<real>): (z: seq<real>)
    requires |elevation| == |depth| == |bedrock| == g.NumNodes()
    ensures |z| == |elevation|
  {
    seq(|elevation|, i requires 0 <= i < |elevation| =>
      if g.IsCore(i) then depth[i] + bedrock[i] else elevation[i])
  }

  /** The soil flux written in stage 2, from the elevation and the reset depth. */
  function StepFlux(g: Grid, k: real, hStar: real, exp: real -> real, elevation: seq<real>, depth: seq<real>): (q: seq<real>)
    requires hStar != 0.0
    ensures |q| == g.NumLinks()
  {
    LinkFluxes(k, hStar, exp, ZeroInactive(g, GradAtLinks(g, elevation)), DepthAtLinks(g, elevation, depth))
  }

  /** The whole step: the six stages in order. */
  function SoilFluxStep(g: Grid, k: real, hStar: real, exp: real -> real,
                        production: seq<real>, dt: real, f: Fields): (r: Fields)
    requires Fits(g, f) && |production| == g.NumNodes() && hStar != 0.0
    ensures Fits(g, r)
  {
    var depth0 := ResetDepth(f.elevation, f.bedrock);
    var q := StepFlux(g, k, hStar, exp, f.elevation, depth0);
    var depth1 := ClampNegative(AddSoilChange(g, depth0, production, FluxDivergence(g, q), dt));
    var bedrock1 := LowerBedrock(g, f.bedrock, production, dt);
    Fields(RebuildElevation(g, f.elevation, depth1, bedrock1), depth1, bedrock1, q)
  }

  // ---------------------------------------------------------------------
  // The transport law
  // ---------------------------------------------------------------------

  /**
   * With K >= 0, H* > 0 and H >= 0 the flux runs downhill: its sign is
   * opposite to the slope's (zero on a flat link), and it never exceeds the
   * thick-soil limit K |S| H*.
   */
  lemma FluxOpposesSlope(k: real, hStar: real, exp: real -> real, slope: real, hLink: real)
    requires k >= 0.0 && hStar > 0.0 && hLink >= 0.0
    requires DecaysOnNonPositive(exp)
    ensures slope > 0.0 ==> Flux(k, hStar, exp, slope, hLink) <= 0.0
    ensures slope < 0.0 ==> Flux(k, hStar, exp, slope, hLink) >= 0.0
    ensures slope == 0.0 ==> Flux(k, hStar, exp, slope, hLink) == 0.0
    ensures Abs(Flux(k, hStar, exp, slope, hLink)) <= k * Abs(slope) * hStar
  {
    var x := -hLink / hStar;
    assert x <= 0.0;
    var c := hStar * (1.0 - exp(x));
    assert 0.0 <= c <= hStar;
    assert 0.0 <= k * c <= k * hStar;
    assert Flux(k, hStar, exp, slope, hLink) == -(k * c) * slope;
    if slope < 0.0 {
      assert Abs(Flux(k, hStar, exp, slope, hLink)) == (k * c) * (-slope);
      assert (k * c) * (-slope) <= (k * hStar) * (-slope);
    } else {
      assert Abs(Flux(k, hStar, exp, slope, hLink)) == (k * c) * slope;
      assert (k * c) * slope <= (k * hStar) * slope;
    }
  }

  // ---------------------------------------------------------------------
  // What one step guarantees
  // ---------------------------------------------------------------------

  /** Every inactive link ends the step with zero soil flux. */
  lemma InactiveLinksCarryNoFlux(g: Grid, k: real, hStar: real, exp: real -> real,
                                 production: seq<real>, dt: real, f: Fields, l: nat)
    requires Fits(g, f) && |production| == g.NumNodes() && hStar != 0.0
    requires l < g.NumLinks() && g.IsInactive(l)
    ensures SoilFluxStep(g, k, hStar, exp, production, dt, f).soilFlux[l] == 0.0
  {
  }

  /**
   * On a link whose soil depth (from its higher end node) is non-negative,
   * the step's flux opposes the masked slope and is bounded by K |S| H*.
   */
  lemma StepFluxRunsDownhill(g: Grid, k: real, hStar: real, exp: real -> real,
                             production: seq<real>, dt: real, f: Fields, l: nat)
    requires Fits(g, f) && |production| == g.NumNodes()
    requires k >= 0.0 && hStar > 0.0 && DecaysOnNonPositive(exp)
    requires l < g.NumLinks()
    requires g.valueAtMaxNodeToLink(f.elevation, ResetDepth(f.elevation, f.bedrock), l) >= 0.0
    ensures var q := SoilFluxStep(g, k, hStar, exp, production, dt, f).soilFlux[l];
            var s := ZeroInactive(g, GradAtLinks(g, f.elevation))[l];
            && (s > 0.0 ==> q <= 0.0)
            && (s < 0.0 ==> q >= 0.0)
            && (s == 0.0 ==> q == 0.0)
            && Abs(q) <= k * Abs(s) * hStar
  {
    var depth0 := ResetDepth(f.elevation, f.bedrock);
    var s := ZeroInactive(g, GradAtLinks(g, f.elevation))[l];
    var h := DepthAtLinks(g, f.elevation, depth0)[l];
    FluxOpposesSlope(k, hStar, exp, s, h);
  }

  /** After the step soil depth is non-negative at every node, core or not. */
  lemma DepthNonNegative(g: Grid, k: real, hStar: real, exp: real -> real,
                         production: seq<real>, dt: real, f: Fields)
    requires Fits(g, f) && |production| == g.NumNodes() && hStar != 0.0
    ensures forall i :: 0 <= i < g.NumNodes() ==>
              SoilFluxStep(g, k, hStar, exp, production, dt, f).soilDepth[i] >= 0.0
  {
  }

  /** Bedrock and topography at non-core nodes are left as they were. */
  lemma NonCoreUntouched(g: Grid, k: real, hStar: real, exp: real -> real,
                         production: seq<real>, dt: real, f: Fields, i: nat)
    requires Fits(g, f) && |production| == g.NumNodes() && hStar != 0.0
    requires i < g.NumNodes() && !g.IsCore(i)
    ensures var r := SoilFluxStep(g, k, hStar, exp, production, dt, f);
            r.bedrock[i] == f.bedrock[i] && r.elevation[i] == f.elevation[i]
  {
  }

  /**
   * At a core node bedrock drops by exactly production * dt, and the new
   * topography is the new (clamped) soil depth on top of the new bedrock.
   */
  lemma CoreColumn(g: Grid, k: real, hStar: real, exp: real -> real,
                   production: seq<real>, dt: real, f: Fields, i: nat)
    requires Fits(g, f) && |production| == g.NumNodes() && hStar != 0.0
    requires i < g.NumNodes() && g.IsCore(i)
    ensures var r := SoilFluxStep(g, k, hStar, exp, production, dt, f);
            && r.bedrock[i] == f.bedrock[i] - production[i] * dt
            && r.elevation[i] == r.soilDepth[i] + r.bedrock[i]
  {
  }

  /**
   * The step ignores the soil depth (and the soil flux) it is given: fields
   * that agree on elevation and bedrock lead to the same new fields, since
   * stage 1 overwrites depth at every node from elevation and bedrock before
   * anything reads it, and stage 2 overwrites the flux.
   */
  lemma InputDepthIgnored(g: Grid, k: real, hStar: real, exp: real -> real,
                          production: seq<real>, dt: real, f1: Fields, f2: Fields)
    requires Fits(g, f1) && Fits(g, f2) && |production| == g.NumNodes() && hStar != 0.0
    requires f1.elevation == f2.elevation && f1.bedrock == f2.bedrock
    ensures SoilFluxStep(g, k, hStar, exp, production, dt, f1) == SoilFluxStep(g, k, hStar, exp, production, dt, f2)
  {
  }

  /**
   * The guarantees of one step, over all nodes and links: soil depth is
   * non-negative everywhere; non-core bedrock and topography are untouched;
   * core bedrock drops by production * dt and core topography is depth plus
   * bedrock; inactive links carry no flux.
   */
  lemma StepGuarantees(g: Grid, k: real, hStar: real, exp: real -> real,
                       production: seq<real>, dt: real, f: Fields)
    requires Fits(g, f) && |production| == g.NumNodes() && hStar != 0.0
    ensures var r := SoilFluxStep(g, k, hStar, exp, production, dt, f);
            && (forall i :: 0 <= i < g.NumNodes() ==> r.soilDepth[i] >= 0.0)
            && (forall i :: 0 <= i < g.NumNodes() && !g.IsCore(i) ==>
                  r.bedrock[i] == f.bedrock[i] && r.elevation[i] == f.elevation[i])
            && (forall i :: 0 <= i < g.NumNodes() && g.IsCore(i) ==>
                  r.bedrock[i] == f.bedrock[i] - production[i] * dt && r.elevation[i] == r.soilDepth[i] + r.bedrock[i])
            && (forall l :: 0 <= l < g.NumLinks() && g.IsInactive(l) ==> r.soilFlux[l] == 0.0)
  {

  }

  /**
   * The soil depth a core node ends with: the reset depth plus
   * (production - divergence) * dt, or zero when that is negative.
   */
  lemma CoreDepth(g: Grid, k: real, hStar: real, exp: real -> real,
                  production: seq<real>, dt: real, f: Fields, i: nat)
    requires Fits(g, f) && |production| == g.NumNodes() && hStar != 0.0
    requires i < g.NumNodes() && g.IsCore(i)
    ensures var r := SoilFluxStep(g, k, hStar, exp, production, dt, f);
            var h := f.elevation[i] - f.bedrock[i] + (production[i] - g.fluxDivAtNode(r.soilFlux, i)) * dt;
            r.soilDepth[i] == if h < 0.0 then 0.0 else h
  {
  }

  /**
   * Where a core node's soil is not clamped, soil production cancels: the
   * surface changes only by the flux divergence, z' = z - div(q) * dt.
   */
  lemma UnclampedElevationChange(g: Grid, k: real, hStar: real, exp: real -> real,
                                 production: seq<real>, dt: real, f: Fields, i: nat)
    requires Fits(g, f) && |production| == g.NumNodes() && hStar != 0.0
    requires i < g.NumNodes() && g.IsCore(i)
    requires var q := StepFlux(g, k, hStar, exp, f.elevation, ResetDepth(f.elevation, f.bedrock));
             f.elevation[i] - f.bedrock[i] + (production[i] - g.fluxDivAtNode(q, i)) * dt >= 0.0
    ensures var r := SoilFluxStep(g, k, hStar, exp, production, dt, f);
            r.elevation[i] == f.elevation[i] - g.fluxDivAtNode(r.soilFlux, i) * dt
  {

  }

  /**
   * The production rate never reaches the flux, and at a core node that no
   * run clamps it does not reach the new topography either.
   */
  lemma ElevationIndependentOfProduction(g: Grid, k: real, hStar: real, exp: real -> real,
                                         p1: seq<real>, p2: seq<real>, dt: real, f: Fields, i: nat)
    requires Fits(g, f) && |p1| == |p2| == g.NumNodes() && hStar != 0.0
    requires i < g.NumNodes() && g.IsCore(i)
    requires var q := StepFlux(g, k, hStar, exp, f.elevation, ResetDepth(f.elevation, f.bedrock));
             && f.elevation[i] - f.bedrock[i] + (p1[i] - g.fluxDivAtNode(q, i)) * dt >= 0.0
             && f.elevation[i] - f.bedrock[i] + (p2[i] - g.fluxDivAtNode(q, i)) * dt >= 0.0
    ensures var r1 := SoilFluxStep(g, k, hStar, exp, p1, dt, f);
            var r2 := SoilFluxStep(g, k, hStar, exp, p2, dt, f);
            r1.soilFlux == r2.soilFlux && r1.elevation[i] == r2.elevation[i]
  {

  }

  /**
   * After the step, soil depth equals elevation minus bedrock at every core
   * node, and at a non-core node exactly when that node's soil was not
   * clamped (its elevation was not below its bedrock).
   */
  lemma DepthMatchesSurfaces(g: Grid, k: real, hStar: real, exp: real -> real,
                             production: seq<real>, dt: real, f: Fields, i: nat)
    requires Fits(g, f) && |production| == g.NumNodes() && hStar != 0.0
    requires i < g.NumNodes()
    ensures var r := SoilFluxStep(g, k, hStar, exp, production, dt, f);
            g.IsCore(i) ==> r.soilDepth[i] == r.elevation[i] - r.bedrock[i]
    ensures var r := SoilFluxStep(g, k, hStar, exp, production, dt, f);
            !g.IsCore(i) ==> (r.soilDepth[i] == r.elevation[i] - r.bedrock[i] <==> f.elevation[i] >= f.bedrock[i])
  {
  }

  /** Zero flux on every link. */
  function NoFlux(g: Grid): (q: seq<real>) { seq(g.NumLinks(), l => 0.0) }

  /**
   * The flat-surface example of the component's documentation: zero
   * topography, bedrock and soil, unit production and dt = 2. Nothing moves
   * (zero gradient, so zero flux), and every core node ends with topography
   * 0, bedrock -2 and soil depth 2.
   */
  lemma FlatSurfaceExample(g: Grid, k: real, hStar: real, exp: real -> real, f: Fields, production: seq<real>)
    requires Fits(g, f) && |production| == g.NumNodes() && hStar != 0.0
    requires forall i :: 0 <= i < g.NumNodes() ==>
               f.elevation[i] == 0.0 && f.bedrock[i] == 0.0 && f.soilDepth[i] == 0.0 && production[i] == 1.0
    requires forall l :: 0 <= l < g.NumLinks() ==> g.gradAtLink(f.elevation, l) == 0.0
    requires forall i :: 0 <= i < g.NumNodes() ==>
               g.fluxDivAtNode(NoFlux(g), i) == 0.0
    ensures var r := SoilFluxStep(g, k, hStar, exp, production, 2.0, f);
            && (forall l :: 0 <= l < g.NumLinks() ==> r.soilFlux[l] == 0.0)
            && (forall i :: 0 <= i < g.NumNodes() && g.IsCore(i) ==>
                  r.elevation[i] == 0.0 && r.bedrock[i] == -2.0 && r.soilDepth[i] == 2.0)
  {
    var r := SoilFluxStep(g, k, hStar, exp, production, 2.0, f);
    assert r.soilFlux == NoFlux(g);
  }
}
