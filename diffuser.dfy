/**
 * The DepthDependentDiffuser component: it holds the diffusivity, the soil
 * transport decay depth and references to the grid's field arrays, and each
 * call of `SoilFlux` updates soil depth, soil flux, bedrock and topography in
 * place, one stage after another, as `HillslopeFlux.SoilFluxStep` describes.
 */
module DepthDependentDiffusion {
  import opened LandlabGrid
  import opened HillslopeFlux

  class DepthDependentDiffuser {
    const grid: Grid
    const linearDiffusivity: real        // K
    const soilTransportDecayDepth: real  // H*

    // node fields
    const elev: array<real>          // topographic__elevation
    const soilProdRate: array<real>  // soil_production__rate
    const depth: array<real>         // soil__depth
    const bedrock: array<real>       // bedrock__elevation
    // link fields
    const slope: array<real>         // topographic__slope
    const flux: array<real>          // soil__flux

    /** Field sizes match the grid, and the fields are separate arrays. */
    ghost predicate Valid() {
      && soilTransportDecayDepth != 0.0
      && elev.Length == grid.NumNodes()
      && soilProdRate.Length == grid.NumNodes()
      && depth.Length == grid.NumNodes()
      && bedrock.Length == grid.NumNodes()
      && slope.Length == grid.NumLinks()
      && flux.Length == grid.NumLinks()
      && Separate(elev, soilProdRate, depth, bedrock, slope, flux)
    }

    /** The current values of the fields a step writes. */
    ghost function State(): Fields
      reads elev, depth, bedrock, flux
    {
      Fields(elev[..], depth[..], bedrock[..], flux[..])
    }

    constructor (grid: Grid, elev: array<real>, soilProdRate: array<real>, depth: array<real>,
                 bedrock: array<real>, slope: array<real>, flux: array<real>,
                 linearDiffusivity: real := 1.0, soilTransportDecayDepth: real := 1.0)
      requires soilTransportDecayDepth != 0.0
      requires elev.Length == soilProdRate.Length == depth.Length == bedrock.Length == grid.NumNodes()
      requires slope.Length == flux.Length == grid.NumLinks()
      requires Separate(elev, soilProdRate, depth, bedrock, slope, flux)
      ensures Valid()
      ensures this.grid == grid
      ensures this.linearDiffusivity == linearDiffusivity
      ensures this.soilTransportDecayDepth == soilTransportDecayDepth
      ensures this.elev == elev && this.soilProdRate == soilProdRate && this.depth == depth
      ensures this.bedrock == bedrock && this.slope == slope && this.flux == flux
    {
      this.grid := grid;
      this.linearDiffusivity := linearDiffusivity;
      this.soilTransportDecayDepth := soilTransportDecayDepth;
      this.elev := elev;
      this.soilProdRate := soilProdRate;
      this.depth := depth;
      this.bedrock := bedrock;
      this.slope := slope;
      this.flux := flux;
    }

    /** Stage 1: soil depth := elevation - bedrock, at every node. */
    method ResetSoilDepth()
      requires Valid()
      modifies depth
      ensures depth[..] == ResetDepth(elev[..], bedrock[..])
    {
      for i := 0 to depth.Length
        invariant forall j :: 0 <= j < i ==> depth[j] == elev[j] - bedrock[j]
      {
        depth[i] := elev[i] - bedrock[i];
      }
      assert depth[..] == ResetDepth(elev[..], bedrock[..]);
    }

    /** Stage 2a: slope[link] := 0 on every inactive link. */
    method ZeroInactiveSlopes(s: array<real>)
      requires Valid() && s.Length == grid.NumLinks()
      modifies s
      ensures s[..] == ZeroInactive(grid, old(s[..]))
    {
      for l := 0 to s.Length
        invariant forall j :: 0 <= j < l ==> s[j] == if grid.IsInactive(j) then 0.0 else old(s[j])
        invariant forall j :: l <= j < s.Length ==> s[j] == old(s[j])
      {
        if grid.statusAtLink[l] == Inactive {
          s[l] := 0.0;
        }
      }
      assert s[..] == ZeroInactive(grid, old(s[..]));
    }

    /** Stage 2b: the transport law on every link. */
    method UpdateFlux(s: seq<real>, hLink: seq<real>, exp: real -> real)
      requires Valid() && |s| == |hLink| == grid.NumLinks()
      modifies flux
      ensures flux[..] == LinkFluxes(linearDiffusivity, soilTransportDecayDepth, exp, s, hLink)
    {
      for l := 0 to flux.Length
        invariant forall j :: 0 <= j < l ==>
                    flux[j] == Flux(linearDiffusivity, soilTransportDecayDepth, exp, s[j], hLink[j])
      {
        flux[l] := -linearDiffusivity * s[l] * soilTransportDecayDepth
                   * (1.0 - exp(-hLink[l] / soilTransportDecayDepth));
      }
      forall j | 0 <= j < flux.Length
        ensures flux[..][j] == LinkFluxes(linearDiffusivity, soilTransportDecayDepth, exp, s, hLink)[j]
      {
      }
      assert flux[..] == LinkFluxes(linearDiffusivity, soilTransportDecayDepth, exp, s, hLink);
    }

    /** Stage 3: depth += (production - dqdx) * dt at core nodes. */
    method AddSoilChangeAtCore(dqdx: seq<real>, dt: real)
      requires Valid() && |dqdx| == grid.NumNodes()
      modifies depth
      ensures depth[..] == AddSoilChange(grid, old(depth[..]), soilProdRate[..], dqdx, dt)
    {
      for i := 0 to depth.Length
        invariant forall j :: 0 <= j < i ==>
                    depth[j] == if grid.IsCore(j) then old(depth[j]) + (soilProdRate[j] - dqdx[j]) * dt
                                else old(depth[j])
        invariant forall j :: i <= j < depth.Length ==> depth[j] == old(depth[j])
      {
        if grid.statusAtNode[i] == Core {
          depth[i] := depth[i] + (soilProdRate[i] - dqdx[i]) * dt;
        }
      }
      forall j | 0 <= j < depth.Length
        ensures depth[..][j] == AddSoilChange(grid, old(depth[..]), soilProdRate[..], dqdx, dt)[j]
      {
      }
      assert depth[..] == AddSoilChange(grid, old(depth[..]), soilProdRate[..], dqdx, dt);
    }

    /** Stage 4: depth := 0 wherever it is negative, at every node. */
    method ClampNegativeDepth()
      requires Valid()
      modifies depth
      ensures depth[..] == ClampNegative(old(depth[..]))
    {
      for i := 0 to depth.Length
        invariant forall j :: 0 <= j < i ==> depth[j] == if old(depth[j]) < 0.0 then 0.0 else old(depth[j])
        invariant forall j :: i <= j < depth.Length ==> depth[j] == old(depth[j])
      {
        if depth[i] < 0.0 {
          depth[i] := 0.0;
        }
      }
      assert depth[..] == ClampNegative(old(depth[..]));
    }

    /** Stage 5: bedrock -= production * dt at core nodes. */
    method LowerBedrockAtCore(dt: real)
      requires Valid()
      modifies bedrock
      ensures bedrock[..] == LowerBedrock(grid, old(bedrock[..]), soilProdRate[..], dt)
    {
      for i := 0 to bedrock.Length
        invariant forall j :: 0 <= j < i ==>
                    bedrock[j] == if grid.IsCore(j) then old(bedrock[j]) - soilProdRate[j] * dt
                                  else old(bedrock[j])
        invariant forall j :: i <= j < bedrock.Length ==> bedrock[j] == old(bedrock[j])
      {
        if grid.statusAtNode[i] == Core {
          bedrock[i] := bedrock[i] - soilProdRate[i] * dt;
        }
      }
      forall j | 0 <= j < bedrock.Length
        ensures bedrock[..][j] == LowerBedrock(grid, old(bedrock[..]), soilProdRate[..], dt)[j]
      {
      }
      assert bedrock[..] == LowerBedrock(grid, old(bedrock[..]), soilProdRate[..], dt);
    }

    /** Stage 6: elevation := depth + bedrock at core nodes. */
    method UpdateTopography()
      requires Valid()
      modifies elev
      ensures elev[..] == RebuildElevation(grid, old(elev[..]), depth[..], bedrock[..])
    {
      for i := 0 to elev.Length
        invariant forall j :: 0 <= j < i ==>
                    elev[j] == if grid.IsCore(j) then depth[j] + bedrock[j] else old(elev[j])
        invariant forall j :: i <= j < elev.Length ==> elev[j] == old(elev[j])
      {
        if grid.statusAtNode[i] == Core {
          elev[i] := depth[i] + bedrock[i];
        }
      }
      assert elev[..] == RebuildElevation(grid, old(elev[..]), depth[..], bedrock[..]);
    }

    /**
     * One soil-flux step of length dt; `exp` is the exponential function.
     * The new fields are `SoilFluxStep` of the old ones; soil depth ends
     * non-negative everywhere, only core nodes change bedrock and topography,
     * and inactive links carry no flux. The slope and production fields are
     * left unchanged.
     */
    method SoilFlux(dt: real, exp: real -> real)
      requires Valid()
      modifies depth, flux, bedrock, elev
      ensures State() == SoilFluxStep(grid, linearDiffusivity, soilTransportDecayDepth, exp,
                                      soilProdRate[..], dt, old(State()))
      ensures forall i :: 0 <= i < depth.Length ==> depth[i] >= 0.0
      ensures forall i :: 0 <= i < grid.NumNodes() && !grid.IsCore(i) ==>
                bedrock[i] == old(bedrock[i]) && elev[i] == old(elev[i])
      ensures forall i :: 0 <= i < grid.NumNodes() && grid.IsCore(i) ==>
                elev[i] == depth[i] + bedrock[i]
      ensures forall l :: 0 <= l < grid.NumLinks() && grid.IsInactive(l) ==> flux[l] == 0.0
    {
      ghost var f := State();
      ghost var k, hStar, p := linearDiffusivity, soilTransportDecayDepth, soilProdRate[..];
      ResetSoilDepth();
      ghost var depth0 := ResetDepth(f.elevation, f.bedrock);
      assert depth[..] == depth0;
      var hLink := DepthAtLinks(grid, elev[..], depth[..]);
      var e := elev[..];
      var s := new real[grid.NumLinks()](l => grid.gradAtLink(e, l));
      assert s[..] == GradAtLinks(grid, f.elevation);
      ZeroInactiveSlopes(s);
      UpdateFlux(s[..], hLink, exp);
      ghost var q := StepFlux(grid, k, hStar, exp, f.elevation, depth0);
      assert flux[..] == q;
      var dqdx := FluxDivergence(grid, flux[..]);
      AddSoilChangeAtCore(dqdx, dt);
      ClampNegativeDepth();
      ghost var depth1 := ClampNegative(AddSoilChange(grid, depth0, p, FluxDivergence(grid, q), dt));
      assert depth[..] == depth1;
      LowerBedrockAtCore(dt);
      ghost var bedrock1 := LowerBedrock(grid, f.bedrock, p, dt);
      assert bedrock[..] == bedrock1;
      UpdateTopography();
      assert elev[..] == RebuildElevation(grid, f.elevation, depth1, bedrock1);
      ghost var r := SoilFluxStep(grid, k, hStar, exp, p, dt, f);
      assert State() == r;
      assert elev[..] == r.elevation && depth[..] == r.soilDepth;
      assert bedrock[..] == r.bedrock && flux[..] == r.soilFlux;
      StepGuarantees(grid, k, hStar, exp, p, dt, f);
    }

    /**
     * run_one_step(dt) is one soil-flux step. Afterwards soil depth equals
     * elevation minus bedrock at every core node, and at a non-core node
     * exactly when that node's elevation was not below its bedrock.
     */
    method RunOneStep(dt: real, exp: real -> real)
      requires Valid()
      modifies depth, flux, bedrock, elev
      ensures State() == SoilFluxStep(grid, linearDiffusivity, soilTransportDecayDepth, exp,
                                      soilProdRate[..], dt, old(State()))
      ensures forall i :: 0 <= i < grid.NumNodes() && grid.IsCore(i) ==> depth[i] == elev[i] - bedrock[i]
      ensures forall i :: 0 <= i < grid.NumNodes() && !grid.IsCore(i) ==>
                (depth[i] == elev[i] - bedrock[i] <==> old(elev[i]) >= old(bedrock[i]))
    {
      ghost var f := State();
      SoilFlux(dt, exp);
      forall i | 0 <= i < grid.NumNodes()
        ensures grid.IsCore(i) ==> depth[i] == elev[i] - bedrock[i]
        ensures !grid.IsCore(i) ==> (depth[i] == elev[i] - bedrock[i] <==> f.elevation[i] >= f.bedrock[i])
      {
        DepthMatchesSurfaces(grid, linearDiffusivity, soilTransportDecayDepth, exp, soilProdRate[..], dt, f, i);
      }
    }
  }

  /** The six field arrays are pairwise distinct objects. */
  predicate Separate(elev: array<real>, soilProdRate: array<real>, depth: array<real>,
                     bedrock: array<real>, slope: array<real>, flux: array<real>)
  {
    && elev != soilProdRate && elev != depth && elev != bedrock && elev != slope && elev != flux
    && soilProdRate != depth && soilProdRate != bedrock && soilProdRate != slope && soilProdRate != flux
    && depth != bedrock && depth != slope && depth != flux
    && bedrock != slope && bedrock != flux
    && slope != flux
  }
}
