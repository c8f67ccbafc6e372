/** The header-skipping splitter that init applies to the two bundled text
    resources: split on "\n", drop the first line, split each remaining line
    on "," and read the fields by position. There is no quoting, no trimming
    and no filtering: every line after the header, an empty one included,
    becomes one record.

    JavaScript's Number(...) is not modelled: the parsers take the coercion
    as a parameter toNumber, so every property below holds whatever the
    coercion does. */
module Csv {
  import opened Text

  /** One element of a destructured array: a string, or undefined when the
      line has fewer fields than the pattern names. */
  datatype Field = Str(text: string) | Undefined

  datatype Location<N> = Location(id: Field, name: Field, lat: N, lon: N)

  datatype Flow<N> = Flow(origin: Field, dest: Field, count: N)

  /** The element at position i of a destructuring pattern. */
  function FieldAt(fields: seq<string>, i: nat): (r: Field)
  {
    if i < |fields| then Str(fields[i]) else Undefined
  }

  /** text.split("\n").slice(1): every line but the header. */
  function DataLines(csvText: string): (r: seq<string>)
    ensures |r| == Count(csvText, '\n')
    ensures forall i :: 0 <= i < |r| ==> '\n' !in r[i]
  {
    Split(csvText, '\n')[1..]
  }

  /** A location line: positional destructuring of its comma pieces into id,
      name, lat and lon, the last two coerced; a missing position is
      undefined. */
  function ParseLocation<N>(line: string, toNumber: Field -> N): (r: Location<N>)
  {
    var f := Split(line, ',');
    Location(FieldAt(f, 0), FieldAt(f, 1), toNumber(FieldAt(f, 2)), toNumber(FieldAt(f, 3)))
  }

  /** A flow line: positional destructuring of its comma pieces into origin,
      dest and count, the last coerced; a missing position is undefined. */
  function ParseFlow<N>(line: string, toNumber: Field -> N): (r: Flow<N>)
  {
    var f := Split(line, ',');
    Flow(FieldAt(f, 0), FieldAt(f, 1), toNumber(FieldAt(f, 2)))
  }

  /** The location records: one per line after the header, in line order. */
  function ParseLocations<N>(csvText: string, toNumber: Field -> N): (r: seq<Location<N>>)
    ensures |r| == |Split(csvText, '\n')| - 1
    ensures forall i :: 0 <= i < |r| ==> r[i] == ParseLocation(Split(csvText, '\n')[i + 1], toNumber)
  {
    var lines := DataLines(csvText);
    seq(|lines|, i requires 0 <= i < |lines| => ParseLocation(lines[i], toNumber))
  }

  /** The flow records: one per line after the header, in line order. */
  function ParseFlows<N>(csvText: string, toNumber: Field -> N): (r: seq<Flow<N>>)
    ensures |r| == |Split(csvText, '\n')| - 1
    ensures forall i :: 0 <= i < |r| ==> r[i] == ParseFlow(Split(csvText, '\n')[i + 1], toNumber)
  {
    var lines := DataLines(csvText);
    seq(|lines|, i requires 0 <= i < |lines| => ParseFlow(lines[i], toNumber))
  }

  // ----- the lines after the header -----

  /** A header line followed by newline-free rows yields exactly those rows. */
  lemma DataLinesOfJoin(header: string, rows: seq<string>)
    requires '\n' !in header
    requires forall i :: 0 <= i < |rows| ==> '\n' !in rows[i]
    ensures DataLines(Join([header] + rows, '\n')) == rows
  {
    var all := [header] + rows;
    assert forall i :: 0 <= i < |all| ==> '\n' !in all[i] by {
      forall i | 0 <= i < |all| ensures '\n' !in all[i] {
        if i > 0 { assert all[i] == rows[i - 1]; }
      }
    }
    SplitJoin(all, '\n');
    assert all[1..] == rows;
  }

  /** The header never matters: whatever the first line holds, the rows are
      the lines after it. */
  lemma DataLinesAfterHeader(header: string, body: string)
    requires '\n' !in header
    ensures DataLines(header + "\n" + body) == Split(body, '\n')
  {
    SplitConcat(header, body, '\n');
    SplitWithoutSeparator(header, '\n');
  }

  /** Appending a line appends exactly one row and keeps the others. */
  lemma DataLinesAppend(csvText: string, line: string)
    requires '\n' !in line
    ensures DataLines(csvText + "\n" + line) == DataLines(csvText) + [line]
  {
    SplitConcat(csvText, line, '\n');
    SplitWithoutSeparator(line, '\n');
  }

  // ----- location records -----

  /** Fields are read by position from the comma-separated pieces; a piece
      the line does not have is undefined, pieces after the fourth are
      ignored. */
  lemma LocationFromFields<N>(fields: seq<string>, toNumber: Field -> N)
    requires |fields| >= 1
    requires forall i :: 0 <= i < |fields| ==> ',' !in fields[i]
    ensures ParseLocation(Join(fields, ','), toNumber)
         == Location(FieldAt(fields, 0), FieldAt(fields, 1),
                     toNumber(FieldAt(fields, 2)), toNumber(FieldAt(fields, 3)))
  {
    SplitJoin(fields, ',');
  }

  /** The common case: id and name are the first two fields, lat and lon the
      coerced third and fourth, and anything after them is dropped. */
  lemma LocationOfLine<N>(id: string, name: string, lat: string, lon: string,
                          extra: seq<string>, toNumber: Field -> N)
    requires ',' !in id && ',' !in name && ',' !in lat && ',' !in lon
    requires forall i :: 0 <= i < |extra| ==> ',' !in extra[i]
    ensures ParseLocation(Join([id, name, lat, lon] + extra, ','), toNumber)
         == Location(Str(id), Str(name), toNumber(Str(lat)), toNumber(Str(lon)))
  {
    var fields := [id, name, lat, lon] + extra;
    forall i | 0 <= i < |fields| ensures ',' !in fields[i] {
      if i >= 4 { assert fields[i] == extra[i - 4]; }
      else if i == 0 { assert fields[i] == id; }
      else if i == 1 { assert fields[i] == name; }
      else if i == 2 { assert fields[i] == lat; }
      else { assert fields[i] == lon; }
    }
    LocationFromFields(fields, toNumber);
  }

  /** Every newline-free row after a header becomes one location, in order. */
  lemma LocationsOfRows<N>(header: string, rows: seq<string>, toNumber: Field -> N)
    requires '\n' !in header
    requires forall i :: 0 <= i < |rows| ==> '\n' !in rows[i]
    ensures |ParseLocations(Join([header] + rows, '\n'), toNumber)| == |rows|
    ensures forall i :: 0 <= i < |rows| ==>
              ParseLocations(Join([header] + rows, '\n'), toNumber)[i] == ParseLocation(rows[i], toNumber)
  {
    DataLinesOfJoin(header, rows);
  }

  /** Two texts that differ only in their header give the same locations. */
  lemma LocationsIgnoreHeader<N>(h1: string, h2: string, body: string, toNumber: Field -> N)
    requires '\n' !in h1 && '\n' !in h2
    ensures ParseLocations(h1 + "\n" + body, toNumber) == ParseLocations(h2 + "\n" + body, toNumber)
  {
    DataLinesAfterHeader(h1, body);
    DataLinesAfterHeader(h2, body);
  }

  /** A text with no newline is only a header: there are no locations. */
  lemma LocationsOfHeaderOnly<N>(header: string, toNumber: Field -> N)
    requires '\n' !in header
    ensures ParseLocations(header, toNumber) == []
  {
    SplitWithoutSeparator(header, '\n');
  }

  /** One more line gives one more location at the end; the earlier ones are
      unchanged. Nothing is filtered. */
  lemma LocationsAppend<N>(csvText: string, line: string, toNumber: Field -> N)
    requires '\n' !in line
    ensures ParseLocations(csvText + "\n" + line, toNumber)
         == ParseLocations(csvText, toNumber) + [ParseLocation(line, toNumber)]
  {
    DataLinesAppend(csvText, line);
  }

  /** A trailing newline adds a record made of the empty line: an empty id,
      an undefined name and coordinates coerced from undefined. */
  lemma LocationsTrailingNewline<N>(csvText: string, toNumber: Field -> N)
    ensures ParseLocations(csvText + "\n", toNumber)
         == ParseLocations(csvText, toNumber) + [Location(Str(""), Undefined, toNumber(Undefined), toNumber(Undefined))]
  {
    assert csvText + "\n" == csvText + "\n" + "";
    LocationsAppend(csvText, "", toNumber);
    SplitWithoutSeparator("", ',');
  }

  // ----- flow records -----

  /** Fields are read by position: origin, dest, then the coerced count;
      missing pieces are undefined, pieces after the third are ignored. */
  lemma FlowFromFields<N>(fields: seq<string>, toNumber: Field -> N)
    requires |fields| >= 1
    requires forall i :: 0 <= i < |fields| ==> ',' !in fields[i]
    ensures ParseFlow(Join(fields, ','), toNumber)
         == Flow(FieldAt(fields, 0), FieldAt(fields, 1), toNumber(FieldAt(fields, 2)))
  {
    SplitJoin(fields, ',');
  }

  /** The common case: origin, dest and count as the first three fields. */
  lemma FlowOfLine<N>(origin: string, dest: string, count: string,
                      extra: seq<string>, toNumber: Field -> N)
    requires ',' !in origin && ',' !in dest && ',' !in count
    requires forall i :: 0 <= i < |extra| ==> ',' !in extra[i]
    ensures ParseFlow(Join([origin, dest, count] + extra, ','), toNumber)
         == Flow(Str(origin), Str(dest), toNumber(Str(count)))
  {
    var fields := [origin, dest, count] + extra;
    forall i | 0 <= i < |fields| ensures ',' !in fields[i] {
      if i >= 3 { assert fields[i] == extra[i - 3]; }
      else if i == 0 { assert fields[i] == origin; }
      else if i == 1 { assert fields[i] == dest; }
      else { assert fields[i] == count; }
    }
    FlowFromFields(fields, toNumber);
  }

  /** Every newline-free row after a header becomes one flow, in order. */
  lemma FlowsOfRows<N>(header: string, rows: seq<string>, toNumber: Field -> N)
    requires '\n' !in header
    requires forall i :: 0 <= i < |rows| ==> '\n' !in rows[i]
    ensures |ParseFlows(Join([header] + rows, '\n'), toNumber)| == |rows|
    ensures forall i :: 0 <= i < |rows| ==>
              ParseFlows(Join([header] + rows, '\n'), toNumber)[i] == ParseFlow(rows[i], toNumber)
  {
    DataLinesOfJoin(header, rows);
  }

  /** Two texts that differ only in their header give the same flows. */
  lemma FlowsIgnoreHeader<N>(h1: string, h2: string, body: string, toNumber: Field -> N)
    requires '\n' !in h1 && '\n' !in h2
    ensures ParseFlows(h1 + "\n" + body, toNumber) == ParseFlows(h2 + "\n" + body, toNumber)
  {
    DataLinesAfterHeader(h1, body);
    DataLinesAfterHeader(h2, body);
  }

  /** One more line gives one more flow at the end; nothing is filtered. */
  lemma FlowsAppend<N>(csvText: string, line: string, toNumber: Field -> N)
    requires '\n' !in line
    ensures ParseFlows(csvText + "\n" + line, toNumber)
         == ParseFlows(csvText, toNumber) + [ParseFlow(line, toNumber)]
  {
    DataLinesAppend(csvText, line);
  }

  /** A trailing newline adds a flow made of the empty line: an empty
      origin, an undefined dest and a count coerced from undefined. */
  lemma FlowsTrailingNewline<N>(csvText: string, toNumber: Field -> N)
    ensures ParseFlows(csvText + "\n", toNumber)
         == ParseFlows(csvText, toNumber) + [Flow(Str(""), Undefined, toNumber(Undefined))]
  {
    assert csvText + "\n" == csvText + "\n" + "";
    FlowsAppend(csvText, "", toNumber);
    SplitWithoutSeparator("", ',');
  }
}
