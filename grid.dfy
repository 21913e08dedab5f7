/**
 * The part of a Landlab model grid that the depth-dependent diffuser relies on:
 * the status of every node and link, and three grid operators. The operators
 * live in Landlab's grid library, which is not part of this model, so a grid
 * carries them as functions; each gives the value of the operator's output
 * array at one index.
 */
module LandlabGrid {

  /** Boundary status of a node; only `Core` nodes evolve. */
  datatype NodeStatus = Core | FixedValue | FixedGradient | Looped | Closed

  /** Status of a link; the diffuser zeroes the slope on `Inactive` links. */
  datatype LinkStatus = Active | Fixed | Inactive

  datatype Grid = Grid(
    statusAtNode: seq<NodeStatus>,
    statusAtLink: seq<LinkStatus>,
    // map_value_at_max_node_to_link(controls, values)[link]: the value at
    // whichever end node of the link has the larger control value
    valueAtMaxNodeToLink: (seq<real>, seq<real>, nat) -> real,
    // calc_grad_at_link(values)[link]
    gradAtLink: (seq<real>, nat) -> real,
    // calc_flux_div_at_node(flux)[node]
    fluxDivAtNode: (seq<real>, nat) -> real)
  {
    function NumNodes(): nat { |statusAtNode| }

    function NumLinks(): nat { |statusAtLink| }

    predicate IsCore(node: nat)
      requires node < NumNodes()
    {
      statusAtNode[node] == Core
    }

    predicate IsInactive(link: nat)
      requires link < NumLinks()
    {
      statusAtLink[link] == Inactive
    }
  }
}
