# JGraphT JSON exporter — a Dafny model

This project models the JSON exporter of JGraphT's I/O package (`JSONExporter`).
The behaviour it models is the one pinned down by the exporter's unit tests.
The exporter writes a graph as one compact JSON document, with no whitespace:

    {"creator":"JGraphT JSON Exporter","version":"1","nodes":[...],"edges":[...]}

The model covers these parts:

- **Graph** (`Graphs`): a class holding the vertices in insertion order and the edges in insertion order.
  - An edge has a source, a target and a weight.
  - The weight is 1.0 until `setEdgeWeight` changes it.
  - An edge is designated by its handle, which is the position at which it was added.
- **Id providers** (`Names`): the integer component name provider is a class.
  - It names components "1", "2", … in the order it is first asked about them.
  - Asked again, it repeats a component's id.
  - The exporter owns one provider for vertices and a separate one for edges.
- **Attribute suppliers** (`Attributes`): each supplier gives an ordered list of (name, attribute) pairs, like the insertion-ordered `LinkedHashMap` the suppliers return.
  - A list, unlike a map, can repeat a name. The model then writes one field per entry, both of them, in list order. That case never arises from a real map.
  - Attributes are strings, booleans, ints, longs, floats, doubles or other kinds written through their text.
  - `Encode` gives each attribute's JSON value. A NaN or infinite float or double has none.
- **JSON values** (`Json`): a value tree and its compact writer `Write`.
  - Strings are escaped as section 7 of RFC 8259 requires: '"', '\\' and the control characters below U+0020.
  - A parser `Parse` is proved to invert the writer, escapes included.
  - So the written text determines the document, and the document determines the text.
- **Document** (`Assembler`): the document as a function of the vertex order, the edge order, the providers and the suppliers.
  - Node objects are `{"id":…}` followed by the vertex attributes.
  - Edge objects are `{"id":…,"source":…,"target":…}` followed by the edge attributes.
  - Attributes appear in supplier order.
  - A non-finite number anywhere makes the export fail.
- **Exporter** (`Exporter`): `JsonExporter` is a class that writes the document to a growing sink piece by piece.
  - It names vertices and edges as it goes.
  - Its `ExportGraph` is proved to write exactly the text of the document function for the providers' resulting state.
- **Scenarios** (`Scenarios`): the four documented cases.
  - Each one builds its graph through the graph's own operations and runs the exporter with fresh providers.
  - Each successful case states the exact document that is written, and that the written text parses back to that document.
  - The NaN case states the failure and the attribute it names.

## Model

| member | source | states |
|---|---|---|
| Scenarios.Basic | jgrapht-io/src/test/java/org/jgrapht/io/JSONExporterTest.java:40-69 | The default exporter on the directed graph 1→2, 2→3, 3→4, 1→4 writes exactly the text of the document with the header, nodes {"id":"1"}…{"id":"4"} and edges {"id","source","target"} in insertion order. That text parses back to this document. |
| Scenarios.BuildBasicGraph | jgrapht-io/src/test/java/org/jgrapht/io/JSONExporterTest.java:48-62 | The built graph has vertices 1,2,3,4 and the four edges in the order added, each of weight 1.0. |
| Scenarios.BasicDocument | jgrapht-io/src/test/java/org/jgrapht/io/JSONExporterTest.java:46 | With integer ids and no attributes, the export of that graph is the expected document of the basic test. |
| Scenarios.ExportToString | jgrapht-io/src/test/java/org/jgrapht/io/JSONExporterTest.java:64-67 | Exporting to an empty sink yields exactly the document function's text, or its error. With fresh providers, vertex i gets id i+1 and edge k gets id k+1. |
| Scenarios.Colored | jgrapht-io/src/test/java/org/jgrapht/io/JSONExporterTest.java:71-140 | The weighted graph with colour and label suppliers exports to the expected document. Attributes follow the structural fields in supplier order, and each edge has one weight field: 1.0, 1.0 and then 100.0. The text parses back to the document. |
| Scenarios.BuildColoredGraph | jgrapht-io/src/test/java/org/jgrapht/io/JSONExporterTest.java:84-92 | The built graph has vertices 1,2,3 and edges 1→2, 1→3, 2→3 with handles 0,1,2. Only 2→3 has weight 100.0. |
| Scenarios.ColoredDocument | jgrapht-io/src/test/java/org/jgrapht/io/JSONExporterTest.java:94-135 | With these suppliers and integer ids, the export equals the expected colored document. |
| Scenarios.ColoredEncodable | jgrapht-io/src/test/java/org/jgrapht/io/JSONExporterTest.java:94-130 | Every attribute the colored suppliers give is encodable, so the export succeeds. |
| Scenarios.Typed | jgrapht-io/src/test/java/org/jgrapht/io/JSONExporterTest.java:142-196 | Attributes of every kind are written with their own encoding and the expected document results. The text parses back to it. |
| Scenarios.BuildTypedGraph | jgrapht-io/src/test/java/org/jgrapht/io/JSONExporterTest.java:149-159 | The built graph is vertices 1,2 and the single edge 1→2, reweighted to 100.0. |
| Scenarios.TypedDocument | jgrapht-io/src/test/java/org/jgrapht/io/JSONExporterTest.java:147 | With the typed suppliers, the export equals the expected typed document. |
| Scenarios.TypedFirstNode | jgrapht-io/src/test/java/org/jgrapht/io/JSONExporterTest.java:165-170 | Vertex 1's object is "id" followed by the six attributes in supplier order. The string is quoted; the double and float are 3.4 unquoted; the int and long are 3 unquoted; the boolean is true. |
| Scenarios.NanDouble | jgrapht-io/src/test/java/org/jgrapht/io/JSONExporterTest.java:198-228 | A vertex with a NaN double attribute makes the export fail with the error naming that attribute. |
| Scenarios.NanDocument | jgrapht-io/src/test/java/org/jgrapht/io/JSONExporterTest.java:210-225 | The document function for that graph is the failure naming "NaNAttribute". |
| Scenarios.FreshIds | jgrapht-io/src/test/java/org/jgrapht/io/JSONExporterTest.java:132-135 | Providers that started empty name vertex vs[i] "i+1" and edge handle k "k+1". |
| Assembler.EncodeEntries | jgrapht-io/src/test/java/org/jgrapht/io/JSONExporterTest.java:94-130 | A supplier's attributes become members in its order, with each member's name and encoded value. Encoding fails exactly when some attribute is non-finite. The error names the first such attribute. |
| Assembler.NodesSpec | jgrapht-io/src/test/java/org/jgrapht/io/JSONExporterTest.java:46 | The nodes array succeeds exactly when every vertex's attributes encode. It then holds one node object per vertex, in vertex order. Otherwise its error is that of the first failing vertex. |
| Assembler.EdgesSpec | jgrapht-io/src/test/java/org/jgrapht/io/JSONExporterTest.java:46 | As for nodes: the edges array holds one edge object per edge in edge order, or the first failing edge's error. |
| Assembler.NodeText | jgrapht-io/src/test/java/org/jgrapht/io/JSONExporterTest.java:76 | A node object's text is `{"id":…` followed by one `,"name":value` per attribute in supplier order, then `}`. |
| Assembler.EdgeText | jgrapht-io/src/test/java/org/jgrapht/io/JSONExporterTest.java:76 | An edge object's text is `"id"`, `"source"`, `"target"` in that order, then its attribute fields in supplier order. |
| Assembler.WeightFieldOnce | jgrapht-io/src/test/java/org/jgrapht/io/JSONExporterTest.java:114-127 | When the supplier lists "weight" once, the edge object has exactly one "weight" member. It sits right after the structural fields at the supplier's position and carries the supplier's value. |
| Assembler.ExportText | jgrapht-io/src/test/java/org/jgrapht/io/JSONExporterTest.java:46 | A successful export is the fixed header `{"creator":"JGraphT JSON Exporter","version":"1","nodes":[`, the node objects, `],"edges":[`, the edge objects and `]}`, with ',' between objects only. The text parses back to the document. |
| Assembler.OpeningText | jgrapht-io/src/test/java/org/jgrapht/io/JSONExporterTest.java:46 | The text before the first node is exactly `{"creator":"JGraphT JSON Exporter","version":"1","nodes":[`. |
| Assembler.BetweenText | jgrapht-io/src/test/java/org/jgrapht/io/JSONExporterTest.java:46 | The text between the node array and the edge array is exactly `],"edges":[`, and the text after the edges is `]}`. |
| Assembler.ExportOfParts | jgrapht-io/src/test/java/org/jgrapht/io/JSONExporterTest.java:46 | The export fails with the nodes' error, or else with the edges' error, or else is the header, nodes, separator, edges and closing. |
| Assembler.ExportFails | jgrapht-io/src/test/java/org/jgrapht/io/JSONExporterTest.java:198-228 | The export fails if and only if some vertex or edge attribute is a NaN or infinite float or double. The error then names such an attribute. |
| Attributes.Encode | jgrapht-io/src/test/java/org/jgrapht/io/JSONExporterTest.java:214 | An attribute has no JSON value exactly when it is a non-finite float or double. |
| Attributes.EncodeText | jgrapht-io/src/test/java/org/jgrapht/io/JSONExporterTest.java:165-170 | Type encoding: strings are quoted, booleans are bare words, and ints and longs are their canonical decimal text (optional '-', digits, no leading zero), unquoted, reading back as the same number. Finite floats and doubles are their decimal text, unquoted. |
| Json.ParseWrite | jgrapht-io/src/test/java/org/jgrapht/io/JSONExporterTest.java:46 | Every written JSON value parses back to itself. |
| Json.WriteInjective | jgrapht-io/src/test/java/org/jgrapht/io/JSONExporterTest.java:46 | Two values are written as the same text if and only if they are equal. |
| Json.ParseStringRoundTrip | jgrapht-io/src/test/java/org/jgrapht/io/JSONExporterTest.java:76 | An escaped string body followed by a closing quote reads back as the original string and the remaining text. |
| Json.EscapePlain | jgrapht-io/src/test/java/org/jgrapht/io/JSONExporterTest.java:76 | Text made only of printable ASCII other than '"', '\\' and '/', such as "I have no color!" and "what?", is written inside its quotes unchanged. |
| Decimal.NatToStringRoundTrip | jgrapht-io/src/test/java/org/jgrapht/io/JSONExporterTest.java:134 | An integer id's decimal text reads back as the number. |
| Decimal.NatToStringInjective | jgrapht-io/src/test/java/org/jgrapht/io/JSONExporterTest.java:134 | Two numbers have the same decimal text if and only if they are equal. |
| Decimal.IntToStringRoundTrip | jgrapht-io/src/test/java/org/jgrapht/io/JSONExporterTest.java:167-169 | A signed integer attribute's text reads back as the integer. |
| Names.NumberingAt | jgrapht-io/src/test/java/org/jgrapht/io/JSONExporterTest.java:134-135 | The i-th component named gets id i+1, and no other component has an id. |
| Names.NumberingHas | jgrapht-io/src/test/java/org/jgrapht/io/JSONExporterTest.java:134 | A component has an id exactly when it has been named. |
| Names.NamesDistinct | jgrapht-io/src/test/java/org/jgrapht/io/JSONExporterTest.java:134 | Two named components share a name if and only if they are the same component. |
| Names.IntegerNameProvider.constructor | jgrapht-io/src/test/java/org/jgrapht/io/JSONExporterTest.java:134-135 | A new integer provider has named nothing: no ids, an empty naming order, next id 1. |
| Names.IntegerNameProvider.GetName | jgrapht-io/src/test/java/org/jgrapht/io/JSONExporterTest.java:134 | Returns c's id. A new component gets the next number and is appended to the naming order; a known one leaves the provider unchanged. |
| Exporter.FreshNames | jgrapht-io/src/test/java/org/jgrapht/io/JSONExporterTest.java:133-135 | A fresh provider run over distinct components names the i-th one "i+1". |
| Exporter.JsonExporter.ExportGraph | jgrapht-io/src/test/java/org/jgrapht/io/JSONExporterTest.java:66 | On success the sink gains exactly the document function's text for the providers' new state. On failure the error is the document's. The sink only grows. New vertices are named in vertex order and new edges in handle order. |
| Exporter.JsonExporter.WriteNodesSection | jgrapht-io/src/test/java/org/jgrapht/io/JSONExporterTest.java:66 | Writes the header and then the node objects. The result is the nodes array of the document function; on success the sink has gained exactly the header and the comma-separated nodes, and vertices are named in vertex order. |
| Exporter.JsonExporter.WriteEdgesSection | jgrapht-io/src/test/java/org/jgrapht/io/JSONExporterTest.java:66 | Writes `],"edges":[`, the edge objects and, when they all encode, the closing `]}`. The result is the edges array; vertex ids are unchanged and edges are named in handle order. |
| Exporter.JsonExporter.FinishExport | jgrapht-io/src/test/java/org/jgrapht/io/JSONExporterTest.java:66 | After the nodes section, completes the document: on success the sink holds exactly the old contents followed by the whole export text, otherwise the error is the export's; vertex ids are unchanged. |
| Exporter.JsonExporter.ExportNodes | jgrapht-io/src/test/java/org/jgrapht/io/JSONExporterTest.java:46 | Writes the node objects separated by ','. The result is the nodes array of the document function, and vertices are named in vertex order. |
| Exporter.JsonExporter.ExportEdges | jgrapht-io/src/test/java/org/jgrapht/io/JSONExporterTest.java:46 | Writes the edge objects separated by ','. The result is the edges array, edges are named in handle order, and the vertex ids are unchanged. |
| Exporter.JsonExporter.NameEdge | jgrapht-io/src/test/java/org/jgrapht/io/JSONExporterTest.java:46 | Edge k's object uses its own id and its endpoints' existing ids. Only the edge numbering can grow. |
| Exporter.JsonExporter.Default | jgrapht-io/src/test/java/org/jgrapht/io/JSONExporterTest.java:64 | The default exporter has fresh integer providers and no attributes. |
| Exporter.JsonExporter.constructor | jgrapht-io/src/test/java/org/jgrapht/io/JSONExporterTest.java:132-135 | The exporter holds the given providers and suppliers. |
| Exporter.StringSink.constructor | jgrapht-io/src/test/java/org/jgrapht/io/JSONExporterTest.java:65 | A new output stream is empty. |
| Exporter.StringSink.Write | jgrapht-io/src/test/java/org/jgrapht/io/JSONExporterTest.java:65-66 | Writing appends to the output and nothing else. |
| Graphs.Graph.constructor | jgrapht-io/src/test/java/org/jgrapht/io/JSONExporterTest.java:48-52 | A new graph has no vertices and no edges. |
| Graphs.Graph.AddVertex | jgrapht-io/src/test/java/org/jgrapht/io/JSONExporterTest.java:54-57 | A new vertex is appended and the result says so. An existing one changes nothing. |
| Graphs.Graph.AddEdge | jgrapht-io/src/test/java/org/jgrapht/io/JSONExporterTest.java:59-62 | The edge is appended with weight 1.0 and its handle is returned. It fails, changing nothing, exactly when an endpoint is missing. |
| Graphs.Graph.EdgeWeight | jgrapht-io/src/test/java/org/jgrapht/io/JSONExporterTest.java:119 | An edge's current weight, defined exactly for the graph's edges. |
| Graphs.Graph.SetEdgeWeight | jgrapht-io/src/test/java/org/jgrapht/io/JSONExporterTest.java:92 | Only that edge's weight changes, and reading it back gives the new weight. It fails, changing nothing, for an unknown edge. |

## Left out

- The exporter's own source (`JSONExporter.java`) is not part of this model. The behaviour follows the expected strings and the failing case in its tests.
- Output goes to a string sink, not a UTF-8 byte stream. Character encoding is not modelled.
- The text Java's `Double.toString` and `Float.toString` give for a finite number is carried as given ("1.0", "3.4", "100.0") rather than computed.
- Graph options such as directed/undirected, multiple edges and self-loops are not modelled. Edges may repeat and are always kept in insertion order.
- Json.EscapePlain: pass-through is stated only for printable ASCII other than '"', '\\' and '/', the only characters the exporter's documented output shows. Json.Escape also writes '/', DEL (U+007F) and every non-ASCII character as itself. That is this model's own choice; the exporter may write them as `\uXXXX` escapes.
- The model adds no structural "weight" field of its own to an edge that its supplier gives no weight. The weight appears only when the supplier lists it, as in the tests.
- Scenarios.Colored, Scenarios.Typed: the edge suppliers read the edge weights as they stand when the exporter is built, not live from the graph. The scenarios set every weight before that point, so the output is the same.
- Exporter.JsonExporter.ExportGraph: an edge's id is keyed by its handle, which is its position in its own graph, not by an identity shared across graphs. An exporter reused on a second graph therefore gives that graph's edge 0 the id its first graph's edge 0 received, where JGraphT's provider, which compares edge objects, would hand out the next numbers. With a fresh exporter per graph, as in every documented case, the ids are the same as JGraphT's. Names.NamesDistinct holds for the components of one numbering; edges of different graphs that share a handle count as one component.
- Exporter.JsonExporter.ExportGraph: on failure it states only that the sink still starts with its old contents. The partial text written before the offending attribute is not specified.
- Scenarios.Basic, Scenarios.Colored, Scenarios.Typed: the output is stated as the text of an explicit JSON value tree, and that text determines the tree (Json.ParseWrite, Json.WriteInjective). It is not spelled out as a literal string.
- The failure is a `Result` error naming the offending attribute, in place of Java's `IllegalArgumentException`.
