/** The page's state: the animation toggle (a signal that starts false and
    that the checkbox writes) and the render surface's layer list, which is
    only ever overwritten with a one-element list built from the current
    toggle. The reactive runtime is modelled by its observable effect: a
    write of a new value to the toggle re-runs the effect once, a write of
    the value it already holds re-runs nothing. */
module App {
  import opened Csv
  import opened Layer

  class FlowmapApp<!N> {
    /** The records parsed from the two bundled text resources. */
    const data: Data<N>
    /** animationEnabledSignal.value */
    var toggle: bool
    /** The render surface's current layers prop. */
    var layers: seq<FlowmapLayer<N>>
    /** Whether init has published the first layer and set up the effect. */
    var initialized: bool
    /** Every layers list written to the render surface after construction,
        oldest first. */
    ghost var published: seq<seq<FlowmapLayer<N>>>

    /** Before init the surface has no layer; afterwards it holds exactly one
        layer built from the current toggle, which is the last list written,
        and every list ever written was one full layer over the loaded data,
        differing from the others at most in its animation flag. */
    ghost predicate Valid()
      reads this
    {
      && (!initialized ==> layers == [] && !toggle && published == [])
      && (initialized ==> layers == [CreateFlowmapLayer(data, toggle)]
                          && |published| >= 2 && published[|published| - 1] == layers)
      && (forall k :: 0 <= k < |published| ==>
            |published[k]| == 1 && published[k] == [CreateFlowmapLayer(data, published[k][0].animationEnabled)])
    }

    /** Loading the page: the signal is created false, both resources are
        parsed, and the render surface is constructed with no layers. */
    constructor (locationCsv: string, flowCsv: string, toNumber: Field -> N)
      ensures Valid() && !initialized
      ensures data == Data(ParseLocations(locationCsv, toNumber), ParseFlows(flowCsv, toNumber))
      ensures !toggle && layers == [] && published == []
    {
      data := Data(ParseLocations(locationCsv, toNumber), ParseFlows(flowCsv, toNumber));
      toggle := false;
      layers := [];
      initialized := false;
      published := [];
    }

    /** deck.setProps({layers: [createFlowmapLayer(v)]}) with the current toggle. */
    method Publish()
      modifies this
      ensures toggle == old(toggle) && initialized == old(initialized)
      ensures layers == [CreateFlowmapLayer(data, toggle)]
      ensures published == old(published) + [layers]
    {
      layers := [CreateFlowmapLayer(data, toggle)];
      published := published + [layers];
    }

    /** The end of init: the explicit first publish, then the effect, whose
        first run publishes the same list again. */
    method Init()
      requires Valid() && !initialized
      modifies this
      ensures Valid() && initialized
      ensures !toggle && layers == [CreateFlowmapLayer(data, false)]
      ensures !layers[0].animationEnabled
      ensures published == old(published) + [layers, layers]
    {
      Publish();
      ghost var first := layers;
      initialized := true;
      Publish();
      assert layers == first;
    }

    /** The checkbox's onChange: animationEnabledSignal.value = checked. A new
        value re-runs the effect, which replaces the whole layer list. */
    method Toggle(checked: bool)
      requires Valid() && initialized
      modifies this
      ensures Valid() && initialized && toggle == checked
      ensures layers == [CreateFlowmapLayer(data, checked)]
      ensures |layers| == 1 && layers[0].animationEnabled == checked && layers[0].id == LayerId
      ensures published == if checked == old(toggle) then old(published) else old(published) + [layers]
    {
      if checked != toggle {
        toggle := checked;
        Publish();
      }
    }
  }
}
