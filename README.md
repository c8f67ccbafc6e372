# Flowmap page core, modelled in Dafny

This models the logic that `src/maplab.jsx` of the flowmap demo writes itself.
It has two parts.

1. **The header-skipping splitter** inside `init`. Each bundled text
   resource (locations, flows) is split on `"\n"`. The first line, the
   header, is dropped. Every remaining line is split on `","` and its fields
   are read by position: `id, name, lat, lon` for a location, and
   `origin, dest, count` for a flow. The numeric fields go through
   JavaScript's `Number(...)`.
2. **The layer builder and the single-slot publisher.** `createFlowmapLayer`
   builds one flow-map layer description. Everything in it is fixed except
   `animationEnabled`. A boolean signal starts `false`, and the checkbox
   writes to it. `init` publishes one layer, then sets up an effect. The
   effect replaces the render surface's whole layer list with a one-element
   list every time the signal changes.

Modules:

- `Text` (Text.dfy): `Split`, as JavaScript's `split` behaves for a
  one-character separator (empty pieces kept, never an empty result). Also
  its inverse `Join`, and the round trips between the two.
- `Csv` (Csv.dfy): the `Location` and `Flow` records, `DataLines` (split
  then `slice(1)`), `ParseLocation`/`ParseFlow` (positional destructuring)
  and `ParseLocations`/`ParseFlows`.
- `Layer` (Layer.dfy): the layer description as a plain datatype, and
  `CreateFlowmapLayer`.
- `App` (App.dfy): the class `FlowmapApp`. Its field `toggle` is the
  signal's value and its field `layers` is the render surface's layers prop.
  A ghost log, `published`, records every list written to the surface.

Modelling decisions:

- **Missing fields are `undefined`.** Destructuring the comma pieces of a
  line by position gives `undefined` for any position the line does not
  have. The model keeps this as `Field.Undefined`. For example, the
  empty line left by a trailing newline becomes the location `id = ""`,
  `name = undefined`, `lat = lon = Number(undefined)`.
- **`Number(...)` is a parameter.** It is the parameter
  `toNumber: Field -> N`, over a type `N` the model never inspects. Every
  property therefore holds whatever the coercion does.
- **Writing the current value publishes nothing.** The signal notifies its
  effect only when the written value differs from the one it holds. So
  `Toggle(v)` with `v == toggle` leaves the log unchanged.
- **Malformed rows are not rejected.** The code does not filter anything
  and cannot fail: every line after the header becomes one record, whatever
  it holds.
- **The checkbox exists only after `init`.** The source mounts the UI at
  the end of `init`, so `Toggle` requires `Init` to have run.

## Model

| member | source | states |
|---|---|---|
| `Text.Split` | src/maplab.jsx:18 | a text with k separators splits into exactly k+1 pieces, and no piece contains the separator |
| `Text.SplitWithoutSeparator` | src/maplab.jsx:18 | a text with no separator is a single piece, itself |
| `Text.SplitConcat` | src/maplab.jsx:18 | the pieces of `a + sep + b` are the pieces of `a` followed by the pieces of `b` |
| `Text.JoinSplit` | src/maplab.jsx:18 | joining the pieces with the separator gives back the original text exactly (nothing is lost or trimmed) |
| `Text.SplitJoin` | src/maplab.jsx:21 | splitting a join of separator-free pieces gives back exactly those pieces, in order |
| `Csv.DataLines` | src/maplab.jsx:17-19 | the lines after the header number exactly the newline count (the line count minus one), and none contains a newline |
| `Csv.ParseLocations` | src/maplab.jsx:17-28 | the location count is the line count minus one; record i is parsed from line i+1, so the header is never a record and order is kept |
| `Csv.ParseFlows` | src/maplab.jsx:29-39 | the flow count is the line count minus one; record i is parsed from line i+1 |
| `Csv.DataLinesOfJoin` | src/maplab.jsx:17-19 | for a header followed by newline-free rows, the data lines are exactly those rows |
| `Csv.DataLinesAfterHeader` | src/maplab.jsx:17-19 | whatever the header holds, the data lines are the split of the text after the first newline |
| `Csv.DataLinesAppend` | src/maplab.jsx:17-19 | appending one line appends exactly one data line and keeps the earlier ones |
| `Csv.LocationFromFields` | src/maplab.jsx:21-27 | for a line made of comma-free fields, `id` is field 0, `name` field 1, `lat`/`lon` the coerced fields 2 and 3, and a missing field is `undefined` |
| `Csv.LocationOfLine` | src/maplab.jsx:21-27 | a line of at least four fields gives `id`, `name`, `ToNumber(lat)`, `ToNumber(lon)` from the first four; fields after the fourth are ignored |
| `Csv.LocationsOfRows` | src/maplab.jsx:17-28 | a header plus n newline-free rows gives exactly n locations, location i parsed from row i |
| `Csv.LocationsIgnoreHeader` | src/maplab.jsx:17-20 | two texts that differ only in their first line give the same locations |
| `Csv.LocationsOfHeaderOnly` | src/maplab.jsx:17-20 | a text without a newline (a header only) gives no locations |
| `Csv.LocationsAppend` | src/maplab.jsx:17-28 | one more line gives one more location, at the end, with the earlier ones unchanged: nothing is filtered |
| `Csv.LocationsTrailingNewline` | src/maplab.jsx:17-28 | a trailing newline adds one location with id `""`, name `undefined` and coordinates coerced from `undefined` |
| `Csv.FlowFromFields` | src/maplab.jsx:33-38 | for a line made of comma-free fields, `origin` is field 0, `dest` field 1, `count` the coerced field 2, and a missing field is `undefined` |
| `Csv.FlowOfLine` | src/maplab.jsx:33-38 | a line of at least three fields gives `origin`, `dest`, `ToNumber(count)` from the first three; later fields are ignored |
| `Csv.FlowsOfRows` | src/maplab.jsx:29-39 | a header plus n newline-free rows gives exactly n flows, flow i parsed from row i |
| `Csv.FlowsIgnoreHeader` | src/maplab.jsx:29-32 | two texts that differ only in their first line give the same flows |
| `Csv.FlowsAppend` | src/maplab.jsx:29-39 | one more line gives one more flow, at the end, with the earlier ones unchanged |
| `Csv.FlowsTrailingNewline` | src/maplab.jsx:29-39 | a trailing newline adds one flow with origin `""`, dest `undefined` and a count coerced from `undefined` |
| `Layer.CreateFlowmapLayer` | src/maplab.jsx:58-71 | the layer's id is always `"my-flowmap-layer"`, its data is the loaded records, it is pickable, and its animation flag is the argument |
| `Layer.AccessorsProjectFields` | src/maplab.jsx:64-70 | the accessors read exactly id, name, lat, lon of a location and origin, dest, count of a flow |
| `Layer.LayersDifferOnlyInAnimation` | src/maplab.jsx:58-71 | layers built for `a` and `b` are equal once the flag is set alike (accessors included), and they are equal exactly when `a == b` |
| `Layer.DefaultLayerNotAnimated` | src/maplab.jsx:58 | the default argument builds the layer with animation off |
| `App.FlowmapApp.constructor` | src/maplab.jsx:14-56 | the toggle starts false, the data are the two parsed resources, and the surface starts with no layers and no writes |
| `App.FlowmapApp.Publish` | src/maplab.jsx:82-84 | the layer list becomes the one-element list for the current toggle, and that list is logged as one more write |
| `App.FlowmapApp.Init` | src/maplab.jsx:73-85 | after init the surface holds one non-animated layer; the explicit publish and the effect's first run write the same list twice |
| `App.FlowmapApp.Toggle` | src/maplab.jsx:78-100 | after the checkbox writes `v`, the list is exactly one layer with the fixed id and `animationEnabled == v`; one write is logged if `v` is new, none otherwise; the invariant (every write is a one-element list holding the full layer built from the loaded data for some flag) is kept |

## Left out

- Viewport fitting (`getViewStateForLocations`, src/maplab.jsx:42-47): it lives in an external library that is not part of this model, and it works in floating-point Web-Mercator maths.
- The semantics of `Number(...)` (NaN, decimals, whitespace): floating point. The parsers take it as the parameter `toNumber`.
- `Deck` construction, the canvas, the DOM queries and `render(<UI/>)` (src/maplab.jsx:49-56, 87, 90-106): I/O and UI plumbing. Only two of their effects are modelled: the Deck's initial empty layer list (line 55), kept as the constructor's `layers == []`, and the checkbox's write to the toggle, kept as `Toggle`. The checkbox's displayed `checked` state is not modelled.
- Preact's effect scheduling and batching: a reactive runtime. Toggle events are a sequence of method calls, each of which runs the effect to completion before returning.
- FlowmapLayer rendering, animation and picking: a GPU library. The layer is a data record, and its accessors are Dafny functions. Object identity is not modelled: each `createFlowmapLayer` call builds a fresh `data` object and fresh accessor closures (src/maplab.jsx:61, 64-70), while the model compares layers by value. So the "same list twice" of `Init` and the `a == b` of `LayersDifferOnlyInAnimation` are equalities of values, not of references.
- src/main.jsx: its parsing is done by `d3-fetch` over the network, and its layer is built once with no state. None of it is the repository's own logic.
- Dafny's `string` is a sequence of Unicode scalar values, while JavaScript strings are sequences of UTF-16 code units. No behaviour is lost: both separators (`"\n"`, `","`) are ASCII and nothing in the core measures string lengths.
