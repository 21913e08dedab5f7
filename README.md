# Depth-dependent hillslope diffusion (Landlab `DepthDependentDiffuser`)

This project models Landlab's `DepthDependentDiffuser` component. It moves soil
down hillslopes with the depth- and slope-dependent transport law of Johnstone
and Hilley (2014):

    q_s = -K S H* (1 - exp(-H / H*))

Here `K` is the linear diffusivity and `S` the topographic gradient on a link.
`H` is the soil depth carried to the link from its higher end node, and `H*` is
the soil transport decay depth.

One call of `soilflux(dt)` updates the grid's fields in place, in six stages:

1. `soil__depth` := `topographic__elevation` - `bedrock__elevation`, at every node.
2. The gradient of the topography is taken on every link, and set to zero on
   inactive links. `soil__flux` := the transport law, on every link.
3. At core nodes, `soil__depth` gains (`soil_production__rate` - flux divergence) * dt.
4. Negative `soil__depth` becomes 0, at every node (core or not).
5. At core nodes, `bedrock__elevation` is lowered by `soil_production__rate` * dt.
6. At core nodes, `topographic__elevation` := `soil__depth` + `bedrock__elevation`.

`run_one_step(dt)` is exactly one such call. The `topographic__slope` field is
declared as an output, but the step computes the slope in a local array and
never writes that field. The model does the same: the field stays unchanged.

The component's documentation says it ignores soil thickness at non-core
nodes. In fact it ignores the incoming `soil__depth` at every node: stage 1
overwrites it from elevation and bedrock (`InputDepthIgnored`). A non-core
node still affects the flux: where it is the higher end of a link, its
elevation minus bedrock is that link's soil depth.

The project has three files:

- `grid.dfy`, module `LandlabGrid`: the parts of a Landlab grid that the component
  uses. These are node status (core or boundary) and link status (active, fixed,
  inactive). There are also three grid operators:
  `map_value_at_max_node_to_link`, `calc_grad_at_link` and `calc_flux_div_at_node`.
  Each operator is a function that gives its output array's value at one index.
- `hillslope_flux.dfy`, module `HillslopeFlux`: the six stages as functions on
  node and link sequences. `SoilFluxStep` chains them in the component's order.
  The stage functions (`ResetDepth`, `ZeroInactive`, `Flux` and `LinkFluxes`,
  `AddSoilChange`, `ClampNegative`, `LowerBedrock`, `RebuildElevation`,
  `StepFlux`) are the specifications of the class's stage methods, so their
  rows are those methods' rows. The lemmas state what one step guarantees.
- `diffuser.dfy`, module `DepthDependentDiffusion`: the class
  `DepthDependentDiffuser`. It holds `K`, `H*` and the field arrays; the
  constructor stores them. Each stage is a method with a loop over a field
  array. `SoilFlux` runs the stages in order and is proved equal to
  `SoilFluxStep` of the old fields. `RunOneStep` is `SoilFlux`.

Values are `real`. `exp` is a parameter of `SoilFlux` and `RunOneStep`. The
only fact any lemma assumes about it is that it maps x <= 0 into (0, 1]
(`DecaysOnNonPositive`).

## Model

| member | source | states |
|---|---|---|
| `DepthDependentDiffusion.DepthDependentDiffuser.constructor` | landlab/components/depth_dependent_diffusion/hillslope_depth_dependent_linear_flux.py:193-219 | Stores the diffusivity and decay depth, with defaults 1.0 and 1.0, and references to the six field arrays. The fields have the grid's node or link count and are separate arrays. |
| `DepthDependentDiffusion.DepthDependentDiffuser.ResetSoilDepth` | landlab/components/depth_dependent_diffusion/hillslope_depth_dependent_linear_flux.py:231-235 | Before anything else changes, soil depth at every node becomes elevation minus bedrock. Only the depth field is written. |
| `DepthDependentDiffusion.DepthDependentDiffuser.ZeroInactiveSlopes` | landlab/components/depth_dependent_diffusion/hillslope_depth_dependent_linear_flux.py:243-244 | The slope array keeps its values on non-inactive links and is 0 on every inactive link. |
| `DepthDependentDiffusion.DepthDependentDiffuser.UpdateFlux` | landlab/components/depth_dependent_diffusion/hillslope_depth_dependent_linear_flux.py:246-252 | The soil flux on every link is -K S H* (1 - exp(-H/H*)) of that link's slope and depth. Only the flux field is written. |
| `DepthDependentDiffusion.DepthDependentDiffuser.AddSoilChangeAtCore` | landlab/components/depth_dependent_diffusion/hillslope_depth_dependent_linear_flux.py:254-261 | Depth at each core node grows by (production - divergence) * dt. Depth at non-core nodes is unchanged. |
| `DepthDependentDiffusion.DepthDependentDiffuser.ClampNegativeDepth` | landlab/components/depth_dependent_diffusion/hillslope_depth_dependent_linear_flux.py:263-264 | Every negative depth becomes 0, at every node. Non-negative depths are kept. |
| `DepthDependentDiffusion.DepthDependentDiffuser.LowerBedrockAtCore` | landlab/components/depth_dependent_diffusion/hillslope_depth_dependent_linear_flux.py:266-269 | Bedrock at each core node drops by production * dt. Bedrock at non-core nodes is unchanged. |
| `DepthDependentDiffusion.DepthDependentDiffuser.UpdateTopography` | landlab/components/depth_dependent_diffusion/hillslope_depth_dependent_linear_flux.py:271-274 | Elevation at each core node becomes depth plus bedrock. Elevation at non-core nodes is unchanged. |
| `DepthDependentDiffusion.DepthDependentDiffuser.SoilFlux` | landlab/components/depth_dependent_diffusion/hillslope_depth_dependent_linear_flux.py:221-274 | The new elevation, depth, bedrock and flux are `SoilFluxStep` of the old ones. Depth is >= 0 at every node. Non-core bedrock and elevation are untouched. Core elevation is depth plus bedrock. Inactive links carry zero flux. Slope and production fields are not written. |
| `DepthDependentDiffusion.DepthDependentDiffuser.RunOneStep` | landlab/components/depth_dependent_diffusion/hillslope_depth_dependent_linear_flux.py:276-285 | Same new state as one `SoilFlux` call. Afterwards depth equals elevation minus bedrock at every core node. At a non-core node this holds if and only if that node's elevation was not below its bedrock before the step. |
| `HillslopeFlux.SoilFluxStep` | landlab/components/depth_dependent_diffusion/hillslope_depth_dependent_linear_flux.py:231-274 | The six stages in the component's order. Every field keeps the grid's node or link count. |
| `HillslopeFlux.FluxOpposesSlope` | landlab/components/depth_dependent_diffusion/hillslope_depth_dependent_linear_flux.py:247-252 | Given K >= 0, H* > 0, H >= 0 and the decay of exp, the flux has the opposite sign to the slope and is 0 on a flat link. Its magnitude is at most K \|S\| H*. |
| `HillslopeFlux.StepFluxRunsDownhill` | landlab/components/depth_dependent_diffusion/hillslope_depth_dependent_linear_flux.py:238-252 | On any link whose soil depth (from its higher end node) is >= 0, the step's flux opposes the masked slope and is bounded by K \|S\| H*. |
| `HillslopeFlux.InactiveLinksCarryNoFlux` | landlab/components/depth_dependent_diffusion/hillslope_depth_dependent_linear_flux.py:243-252 | Every inactive link ends the step with zero flux, whatever its gradient and depth. |
| `HillslopeFlux.DepthNonNegative` | landlab/components/depth_dependent_diffusion/hillslope_depth_dependent_linear_flux.py:261-264 | After the step, soil depth is >= 0 at every node, core or not. |
| `HillslopeFlux.NonCoreUntouched` | landlab/components/depth_dependent_diffusion/hillslope_depth_dependent_linear_flux.py:266-274 | Bedrock and elevation at a non-core node are unchanged by the step. |
| `HillslopeFlux.CoreColumn` | landlab/components/depth_dependent_diffusion/hillslope_depth_dependent_linear_flux.py:266-274 | At a core node, bedrock drops by exactly production * dt, and the new elevation is the new (clamped) depth plus the new bedrock. |
| `HillslopeFlux.CoreDepth` | landlab/components/depth_dependent_diffusion/hillslope_depth_dependent_linear_flux.py:254-264 | A core node's new depth is (elevation - bedrock) + (production - divergence of the new flux) * dt, or 0 when that is negative. |
| `HillslopeFlux.InputDepthIgnored` | landlab/components/depth_dependent_diffusion/hillslope_depth_dependent_linear_flux.py:231-240 | Two sets of fields that agree on elevation and bedrock give identical results, whatever their incoming soil depth and flux. The step recomputes depth from elevation and bedrock before reading it. |
| `HillslopeFlux.StepGuarantees` | landlab/components/depth_dependent_diffusion/hillslope_depth_dependent_linear_flux.py:243-274 | Over all nodes and links at once: depth >= 0 everywhere, non-core bedrock and elevation untouched, core bedrock lowered by production * dt, core elevation = depth + bedrock, no flux on inactive links. |
| `HillslopeFlux.UnclampedElevationChange` | landlab/components/depth_dependent_diffusion/hillslope_depth_dependent_linear_flux.py:232-274 | At a core node whose soil is not clamped, new elevation = old elevation - divergence * dt. The production term cancels out. |
| `HillslopeFlux.ElevationIndependentOfProduction` | landlab/components/depth_dependent_diffusion/hillslope_depth_dependent_linear_flux.py:254-274 | Two steps that differ only in the production rate give the same flux. They also give the same elevation at any core node that neither step clamps. |
| `HillslopeFlux.DepthMatchesSurfaces` | landlab/components/depth_dependent_diffusion/hillslope_depth_dependent_linear_flux.py:232-274 | After the step, depth = elevation - bedrock at every core node. At a non-core node this holds if and only if the node's elevation was not below its bedrock. |
| `HillslopeFlux.FlatSurfaceExample` | landlab/components/depth_dependent_diffusion/hillslope_depth_dependent_linear_flux.py:35-50 | The documented flat example: zero fields, production 1, dt = 2. Every link's flux is 0, and every core node ends with elevation 0, bedrock -2 and depth 2. |

## Left out

- The grid operators `map_value_at_max_node_to_link`, `calc_grad_at_link` and `calc_flux_div_at_node` are Landlab library code and are not part of this model. The grid carries them as arbitrary functions, so no property depends on how they compute.
- `core_nodes` is modelled as the set of nodes whose status is `Core`, not as an index array. With unique indices the two give the same updates.
- `np.exp` is a parameter. Floating-point rounding, overflow, infinities and NaN are not modelled: values are exact reals.
- `DepthDependentDiffusion.DepthDependentDiffuser.constructor`: requires a non-zero decay depth. The source accepts 0. The flux then comes out as 0 on links with positive depth, because exp(-inf) is 0. It comes out as NaN on links with zero depth (0/0) or negative depth (0 times -inf). Exact real division cannot express that.
- The constructor's field-registry work is not modelled: the field metadata, `initialize_output_fields` creating missing output fields, the base-class initialisation and the citation text. The caller passes the six field arrays.
- `HillslopeFlux.FlatSurfaceExample`: the example's grid is a 5 x 5 raster and its production rate comes from `ExponentialWeatherer`, which is not part of this model. The lemma instead assumes production 1 at every node. It also assumes the gradient of the flat surface is 0 on every link and the divergence of zero flux is 0 at every node.
- The other numeric documentation examples (sloped surface, two decay depths) depend on `ExponentialWeatherer` and on exact floating-point values. They are not modelled.
- `HillslopeFlux.StepFluxRunsDownhill`: requires the link's soil depth to be >= 0. The source does not guarantee this, because the depth reset in stage 1 can be negative where elevation is below bedrock.
- `DepthDependentDiffusion.DepthDependentDiffuser.SoilFlux`: its ensures does not repeat that core bedrock drops by production * dt. That fact follows from its `SoilFluxStep` equation through `HillslopeFlux.CoreColumn`.
