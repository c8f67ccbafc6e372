/** The flow-map layer description that createFlowmapLayer hands to the
    rendering engine, as plain data: everything in it is fixed except the
    animation flag. The accessors are the functions the layer uses to read
    the parsed records. */
module Layer {
  import opened Csv

  /** The layer's data prop: the parsed records, bound once. */
  datatype Data<N> = Data(locations: seq<Location<N>>, flows: seq<Flow<N>>)

  datatype FlowmapLayer<!N> = FlowmapLayer(
    id: string,
    data: Data<N>,
    pickable: bool,
    animationEnabled: bool,
    getLocationId: Location<N> -> Field,
    getLocationLat: Location<N> -> N,
    getLocationLon: Location<N> -> N,
    getFlowOriginId: Flow<N> -> Field,
    getFlowDestId: Flow<N> -> Field,
    getFlowMagnitude: Flow<N> -> N,
    getLocationName: Location<N> -> Field)

  /** The layer identity the rendering engine diffs layers by. */
  const LayerId: string := "my-flowmap-layer"

  /** createFlowmapLayer(animationEnabled = false) over the loaded data. */
  function CreateFlowmapLayer<N>(data: Data<N>, animationEnabled: bool := false): (r: FlowmapLayer<N>)
    ensures r.id == LayerId && r.data == data && r.pickable
    ensures r.animationEnabled == animationEnabled
  {
    FlowmapLayer(
      LayerId, data, true, animationEnabled,
      (loc: Location<N>) => loc.id,
      (loc: Location<N>) => loc.lat,
      (loc: Location<N>) => loc.lon,
      (flow: Flow<N>) => flow.origin,
      (flow: Flow<N>) => flow.dest,
      (flow: Flow<N>) => flow.count,
      (loc: Location<N>) => loc.name)
  }

  /** The accessors project exactly the parsed fields, whatever the flag. */
  lemma AccessorsProjectFields<N>(data: Data<N>, animationEnabled: bool, loc: Location<N>, flow: Flow<N>)
    ensures var l := CreateFlowmapLayer(data, animationEnabled);
            && l.getLocationId(loc) == loc.id && l.getLocationName(loc) == loc.name
            && l.getLocationLat(loc) == loc.lat && l.getLocationLon(loc) == loc.lon
            && l.getFlowOriginId(flow) == flow.origin && l.getFlowDestId(flow) == flow.dest
            && l.getFlowMagnitude(flow) == flow.count
  {
  }

  /** Two layers built from the same data differ only in the animation flag:
      setting one's flag to the other's gives the other, accessors included. */
  lemma LayersDifferOnlyInAnimation<N>(data: Data<N>, a: bool, b: bool)
    ensures CreateFlowmapLayer(data, a).(animationEnabled := b) == CreateFlowmapLayer(data, b)
    ensures CreateFlowmapLayer(data, a) == CreateFlowmapLayer(data, b) <==> a == b
  {
  }

  /** The default argument builds the layer with animation off. */
  lemma DefaultLayerNotAnimated<N>(data: Data<N>)
    ensures CreateFlowmapLayer(data) == CreateFlowmapLayer(data, false)
    ensures !CreateFlowmapLayer(data).animationEnabled
  {
  }
}
