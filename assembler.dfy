/**
 * The document the JSON exporter writes for a graph, as a function of the
 * vertex order, the edge order, the id providers and the attribute
 * suppliers:
 *
 *   {"creator":"JGraphT JSON Exporter","version":"1",
 *    "nodes":[{"id":...,<vertex attributes>},...],
 *    "edges":[{"id":...,"source":...,"target":...,<edge attributes>},...]}
 *
 * without any whitespace. Structural fields come first, attributes follow
 * in the order the supplier lists them. A non-finite float or double
 * attribute anywhere makes the whole export fail.
 */
module Assembler {
  import opened Wrappers
  import opened Json
  import opened Attributes
  import opened Graphs

  const Creator: string := "JGraphT JSON Exporter"
  const Version: string := "1"

  /** The document's member names. */
  const CreatorKey: string := "creator"
  const VersionKey: string := "version"
  const NodesKey: string := "nodes"
  const EdgesKey: string := "edges"

  /**
   * The text before the first node: the creator and version members, whose
   * values are written verbatim (HeaderWordsPlain), and the opening of "nodes".
   */
  const Opening: string :=
    "{" + Quote(CreatorKey) + ":" + ("\"" + Creator + "\"") + "," + Quote(VersionKey) + ":" + ("\"" + Version + "\"")
    + "," + Quote(NodesKey) + ":["
  /** The text between the last node and the first edge. */
  const Between: string := "]," + Quote(EdgesKey) + ":["
  /** The text after the last edge. */
  const Closing: string := "]}"

  /** Export fails on a float or double attribute (named here) that is NaN or infinite. */
  datatype ExportError = NonFiniteNumber(attribute: string)

  /**
   * The pluggable parts of an exporter: the id of a vertex and of an edge
   * (designated by its handle), and the ordered attributes of each.
   */
  datatype Providers<!V> = Providers(
    vertexId: V -> string,
    vertexAttributes: V -> seq<Entry>,
    edgeId: nat -> string,
    edgeAttributes: nat -> seq<Entry>)

  predicate AllFinite(attrs: seq<Entry>) {
    forall j :: 0 <= j < |attrs| ==> !IsNonFinite(attrs[j].value)
  }

  /**
   * The members for a supplier's attributes, in its order; on failure the
   * error names the first attribute that has no JSON number.
   */
  function EncodeEntries(attrs: seq<Entry>): (r: Result<seq<Member>, ExportError>)
    ensures r.Success? <==> AllFinite(attrs)
    ensures r.Success? ==> |r.value| == |attrs| && forall j :: 0 <= j < |attrs| ==>
      r.value[j] == Member(attrs[j].name, Encode(attrs[j].value).value)
    ensures r.Failure? ==>
      exists j :: 0 <= j < |attrs| && IsNonFinite(attrs[j].value)
        && AllFinite(attrs[..j]) && r.error == NonFiniteNumber(attrs[j].name)
  {
    if attrs == [] then Success([])
    else
      match Encode(attrs[0].value)
      case None => Failure(NonFiniteNumber(attrs[0].name))
      case Some(v) =>
        match EncodeEntries(attrs[1..])
        case Failure(e) =>
          FirstFailureShift(attrs, e);
          Failure(e)
        case Success(ms) => Success([Member(attrs[0].name, v)] + ms)
  }

  /** A failure found past a finite first entry is still the first failure of the whole list. */
  lemma FirstFailureShift(attrs: seq<Entry>, e: ExportError)
    requires |attrs| > 0 && !IsNonFinite(attrs[0].value)
    requires
      exists j :: 0 <= j < |attrs[1..]| && IsNonFinite(attrs[1..][j].value)
        && AllFinite(attrs[1..][..j]) && e == NonFiniteNumber(attrs[1..][j].name)
    ensures
      exists j :: 0 <= j < |attrs| && IsNonFinite(attrs[j].value)
        && AllFinite(attrs[..j]) && e == NonFiniteNumber(attrs[j].name)
  {
    var j :| 0 <= j < |attrs[1..]| && IsNonFinite(attrs[1..][j].value)
      && AllFinite(attrs[1..][..j]) && e == NonFiniteNumber(attrs[1..][j].name);
    assert attrs[..j + 1] == [attrs[0]] + attrs[1..][..j];
  }

  function NodeObject(id: string, attrs: seq<Entry>): (r: Result<Value, ExportError>)
    ensures r.Success? <==> AllFinite(attrs)
  {
    var ms :- EncodeEntries(attrs);
    Success(JObject([Member("id", JString(id))] + ms))
  }

  function EdgeObject(id: string, source: string, target: string, attrs: seq<Entry>): (r: Result<Value, ExportError>)
    ensures r.Success? <==> AllFinite(attrs)
  {
    var ms :- EncodeEntries(attrs);
    Success(JObject([Member("id", JString(id)), Member("source", JString(source)), Member("target", JString(target))] + ms))
  }

  /** The object for the edge with handle k. */
  function EdgeAt<V>(es: seq<Edge<V>>, k: nat, vertexId: V -> string, edgeId: nat -> string,
                     edgeAttributes: nat -> seq<Entry>): (r: Result<Value, ExportError>)
    requires k < |es|
    ensures r.Success? <==> AllFinite(edgeAttributes(k))
  {
    EdgeObject(edgeId(k), vertexId(es[k].source), vertexId(es[k].target), edgeAttributes(k))
  }

  /**
   * The node objects, one per vertex in vertex order; on failure, the error
   * of the first vertex whose attributes cannot be encoded.
   */
  function Nodes<V>(vs: seq<V>, vertexId: V -> string, vertexAttributes: V -> seq<Entry>)
    : Result<seq<Value>, ExportError>
  {
    if vs == [] then Success([])
    else
      match Nodes(vs[..|vs| - 1], vertexId, vertexAttributes)
      case Failure(e) => Failure(e)
      case Success(ns) =>
        match NodeObject(vertexId(vs[|vs| - 1]), vertexAttributes(vs[|vs| - 1]))
        case Failure(e) => Failure(e)
        case Success(n) => Success(ns + [n])
  }

  /**
   * Nodes succeeds exactly when every vertex's attributes encode; then it
   * holds one node object per vertex, in vertex order; otherwise its error
   * is that of the first vertex that does not encode.
   */
  lemma {:induction false} NodesSpec<V>(vs: seq<V>, vertexId: V -> string, vertexAttributes: V -> seq<Entry>)
    ensures var r := Nodes(vs, vertexId, vertexAttributes);
      && (r.Success? <==> forall i :: 0 <= i < |vs| ==> AllFinite(vertexAttributes(vs[i])))
      && (r.Success? ==> |r.value| == |vs| && forall i :: 0 <= i < |vs| ==>
            NodeObject(vertexId(vs[i]), vertexAttributes(vs[i])) == Success(r.value[i]))
      && (r.Failure? ==>
            exists i :: 0 <= i < |vs|
              && NodeObject(vertexId(vs[i]), vertexAttributes(vs[i])) == Failure(r.error)
              && forall i' :: 0 <= i' < i ==> AllFinite(vertexAttributes(vs[i'])))
  {
    if vs != [] {
      var init := vs[..|vs| - 1];
      assert forall i :: 0 <= i < |init| ==> init[i] == vs[i];
      NodesSpec(init, vertexId, vertexAttributes);
    }
  }

  /** Node objects given one by one determine Nodes. */
  lemma NodesOf<V>(vs: seq<V>, vertexId: V -> string, vertexAttributes: V -> seq<Entry>, ns: seq<Value>)
    requires |ns| == |vs|
    requires forall i :: 0 <= i < |vs| ==> NodeObject(vertexId(vs[i]), vertexAttributes(vs[i])) == Success(ns[i])
    ensures Nodes(vs, vertexId, vertexAttributes) == Success(ns)
  {
    NodesSpec(vs, vertexId, vertexAttributes);
    var r := Nodes(vs, vertexId, vertexAttributes);
    assert forall i :: 0 <= i < |vs| ==> AllFinite(vertexAttributes(vs[i]));
    assert r.Success?;
    assert |r.value| == |ns|;
    forall i | 0 <= i < |vs| ensures r.value[i] == ns[i] {
      assert NodeObject(vertexId(vs[i]), vertexAttributes(vs[i])) == Success(r.value[i]);
    }
    assert r.value == ns;
  }

  /**
   * The edge objects, one per edge in edge order; on failure, the error of
   * the first edge whose attributes cannot be encoded.
   */
  function Edges<V>(es: seq<Edge<V>>, vertexId: V -> string, edgeId: nat -> string,
                    edgeAttributes: nat -> seq<Entry>): Result<seq<Value>, ExportError>
  {
    if es == [] then Success([])
    else
      match Edges(es[..|es| - 1], vertexId, edgeId, edgeAttributes)
      case Failure(e) => Failure(e)
      case Success(eds) =>
        match EdgeAt(es, |es| - 1, vertexId, edgeId, edgeAttributes)
        case Failure(e) => Failure(e)
        case Success(o) => Success(eds + [o])
  }

  /** As NodesSpec, for the edges. */
  lemma {:induction false} EdgesSpec<V>(es: seq<Edge<V>>, vertexId: V -> string, edgeId: nat -> string,
                                        edgeAttributes: nat -> seq<Entry>)
    ensures var r := Edges(es, vertexId, edgeId, edgeAttributes);
      && (r.Success? <==> forall k :: 0 <= k < |es| ==> AllFinite(edgeAttributes(k)))
      && (r.Success? ==> |r.value| == |es| && forall k :: 0 <= k < |es| ==>
            EdgeAt(es, k, vertexId, edgeId, edgeAttributes) == Success(r.value[k]))
      && (r.Failure? ==>
            exists k :: 0 <= k < |es|
              && EdgeAt(es, k, vertexId, edgeId, edgeAttributes) == Failure(r.error)
              && forall k' :: 0 <= k' < k ==> AllFinite(edgeAttributes(k')))
  {
    if es != [] {
      var init := es[..|es| - 1];
      EdgeAtPrefix(es, vertexId, edgeId, edgeAttributes);
      EdgesSpec(init, vertexId, edgeId, edgeAttributes);
      var ri := Edges(init, vertexId, edgeId, edgeAttributes);
      if ri.Failure? {
        var k' :| 0 <= k' < |init| && EdgeAt(init, k', vertexId, edgeId, edgeAttributes) == Failure(ri.error)
          && forall k'' :: 0 <= k'' < k' ==> AllFinite(edgeAttributes(k''));
        assert EdgeAt(es, k', vertexId, edgeId, edgeAttributes) == Failure(ri.error);
      }
    }
  }

  /** Edge objects given one by one determine Edges. */
  lemma EdgesOf<V>(es: seq<Edge<V>>, vertexId: V -> string, edgeId: nat -> string,
                   edgeAttributes: nat -> seq<Entry>, eds: seq<Value>)
    requires |eds| == |es|
    requires forall k :: 0 <= k < |es| ==> EdgeAt(es, k, vertexId, edgeId, edgeAttributes) == Success(eds[k])
    ensures Edges(es, vertexId, edgeId, edgeAttributes) == Success(eds)
  {
    EdgesSpec(es, vertexId, edgeId, edgeAttributes);
    var r := Edges(es, vertexId, edgeId, edgeAttributes);
    forall k | 0 <= k < |es| ensures AllFinite(edgeAttributes(k)) {
      assert EdgeAt(es, k, vertexId, edgeId, edgeAttributes).Success?;
    }
    assert r.value == eds;
  }

  lemma EdgeAtPrefix<V>(es: seq<Edge<V>>, vertexId: V -> string, edgeId: nat -> string,
                        edgeAttributes: nat -> seq<Entry>)
    requires es != []
    ensures forall k :: 0 <= k < |es| - 1 ==>
      EdgeAt(es[..|es| - 1], k, vertexId, edgeId, edgeAttributes) == EdgeAt(es, k, vertexId, edgeId, edgeAttributes)
  {
    forall k | 0 <= k < |es| - 1
      ensures EdgeAt(es[..|es| - 1], k, vertexId, edgeId, edgeAttributes) == EdgeAt(es, k, vertexId, edgeId, edgeAttributes)
    {
      assert es[..|es| - 1][k] == es[k];
    }
  }

  function Document<V>(vs: seq<V>, es: seq<Edge<V>>, p: Providers<V>): Result<Value, ExportError> {
    var ns :- Nodes(vs, p.vertexId, p.vertexAttributes);
    var eds :- Edges(es, p.vertexId, p.edgeId, p.edgeAttributes);
    Success(DocumentObject(ns, eds))
  }

  /** The exported text, or the error that aborts the export. */
  function Export<V>(vs: seq<V>, es: seq<Edge<V>>, p: Providers<V>): Result<string, ExportError> {
    var d :- Document(vs, es, p);
    Success(Write(d))
  }

  // ---------------------------------------------------------------------
  // The text of the pieces

  /** The text an encodable attribute contributes to its object: ,"name":value */
  function FieldText(e: Entry): string
    requires !IsNonFinite(e.value)
  {
    "," + Quote(e.name) + ":" + Write(Encode(e.value).value)
  }

  function FieldsText(attrs: seq<Entry>): string
    requires AllFinite(attrs)
  {
    if attrs == [] then "" else FieldText(attrs[0]) + FieldsText(attrs[1..])
  }

  lemma {:induction false} CommaMembersFields(attrs: seq<Entry>)
    requires AllFinite(attrs)
    ensures CommaMembers(EncodeEntries(attrs).value) == FieldsText(attrs)
    decreases |attrs|
  {
    if attrs != [] {
      var ms := EncodeEntries(attrs).value;
      assert ms[1..] == EncodeEntries(attrs[1..]).value;
      CommaMembersFields(attrs[1..]);
    }
  }

  /** A string of printable characters is written between quotes as it is. */
  lemma QuotePlain(s: string)
    requires forall i :: 0 <= i < |s| ==> IsPrintable(s[i])
    ensures Quote(s) == "\"" + s + "\""
  {
    EscapePlain(s);
  }

  /** The text of an object that opens with one string member. */
  lemma OneStringObject(k: string, x: string, ms: seq<Member>, w: string)
    requires w == Write(JObject([Member(k, JString(x))] + ms))
    ensures w == "{" + Quote(k) + ":" + Quote(x) + CommaMembers(ms) + "}"
  {
    ObjectText(Member(k, JString(x)), ms);
    StringMemberText(k, x);
    StringConcat4(w, WriteMember(Member(k, JString(x))), CommaMembers(ms), Quote(k), Quote(x));
  }

  // Regrouping step for the verifier: string concatenation is associative; not a property of the model.
  lemma StringConcat4(w: string, wm: string, c: string, qk: string, qx: string)
    requires w == "{" + wm + c + "}" && wm == qk + ":" + qx
    ensures w == "{" + qk + ":" + qx + c + "}"
  {
  }

  /** The text of an object that opens with three string members. */
  lemma ThreeStringObject(k1: string, x1: string, k2: string, x2: string, k3: string, x3: string,
                          ms: seq<Member>, w: string)
    requires w == Write(JObject([Member(k1, JString(x1)), Member(k2, JString(x2)), Member(k3, JString(x3))] + ms))
    ensures w == "{" + Quote(k1) + ":" + Quote(x1) + "," + Quote(k2) + ":" + Quote(x2)
      + "," + Quote(k3) + ":" + Quote(x3) + CommaMembers(ms) + "}"
  {
    var m2, m3 := Member(k2, JString(x2)), Member(k3, JString(x3));
    assert [Member(k1, JString(x1)), m2, m3] + ms == [Member(k1, JString(x1))] + ([m2] + ([m3] + ms));
    OneStringObject(k1, x1, [m2] + ([m3] + ms), w);
    CommaMembersCons(m2, [m3] + ms);
    CommaMembersCons(m3, ms);
    StringMemberText(k2, x2);
    StringMemberText(k3, x3);
    StringConcat8(w, CommaMembers([m2] + ([m3] + ms)), CommaMembers([m3] + ms), CommaMembers(ms),
      Quote(k1), Quote(x1), Quote(k2), Quote(x2), Quote(k3), Quote(x3));
  }

  // Regrouping step for the verifier: string concatenation is associative; not a property of the model.
  lemma StringConcat8(w: string, c2: string, c1: string, c: string,
                      q1: string, v1: string, q2: string, v2: string, q3: string, v3: string)
    requires w == "{" + q1 + ":" + v1 + c2 + "}"
    requires c2 == "," + (q2 + ":" + v2) + c1 && c1 == "," + (q3 + ":" + v3) + c
    ensures w == "{" + q1 + ":" + v1 + "," + q2 + ":" + v2 + "," + q3 + ":" + v3 + c + "}"
  {
  }

  /**
   * A node object is its "id" field first, then one ,"name":value field per
   * attribute in the supplier's order, and nothing else.
   */
  lemma NodeText(id: string, attrs: seq<Entry>)
    requires AllFinite(attrs)
    ensures Write(NodeObject(id, attrs).value) == "{" + Quote("id") + ":" + Quote(id) + FieldsText(attrs) + "}"
  {
    var ms := EncodeEntries(attrs).value;
    assert NodeObject(id, attrs).value == JObject([Member("id", JString(id))] + ms);
    OneStringObject("id", id, ms, Write(NodeObject(id, attrs).value));
    CommaMembersFields(attrs);
  }

  /**
   * An edge object is "id", "source" and "target" in that order, then its
   * attribute fields in the supplier's order.
   */
  lemma EdgeText(id: string, source: string, target: string, attrs: seq<Entry>)
    requires AllFinite(attrs)
    ensures Write(EdgeObject(id, source, target, attrs).value) ==
      "{" + Quote("id") + ":" + Quote(id) + "," + Quote("source") + ":" + Quote(source)
      + "," + Quote("target") + ":" + Quote(target) + FieldsText(attrs) + "}"
  {
    var ms := EncodeEntries(attrs).value;
    ThreeStringObject("id", id, "source", source, "target", target, ms,
      Write(EdgeObject(id, source, target, attrs).value));
    CommaMembersFields(attrs);
  }

  /**
   * When the supplier lists one "weight" attribute for an edge, the edge
   * object has exactly one "weight" field: the supplier's, at its position
   * after the three structural fields, with the supplier's value.
   */
  lemma WeightFieldOnce(id: string, source: string, target: string, attrs: seq<Entry>, j: nat)
    requires AllFinite(attrs) && j < |attrs| && attrs[j].name == "weight"
    requires forall j' :: 0 <= j' < |attrs| && j' != j ==> attrs[j'].name != "weight"
    ensures var ms := EdgeObject(id, source, target, attrs).value.members;
      && |ms| == |attrs| + 3
      && (forall k :: 0 <= k < |ms| ==> (ms[k].name == "weight" <==> k == j + 3))
      && ms[j + 3].value == Encode(attrs[j].value).value
  {
    var ms := EdgeObject(id, source, target, attrs).value.members;
    forall k | 0 <= k < |ms| ensures ms[k].name == "weight" <==> k == j + 3 {
      if k >= 3 {
        assert ms[k] == EncodeEntries(attrs).value[k - 3];
      }
    }
  }

  // ---------------------------------------------------------------------
  // The document

  /** The document object for given node and edge arrays. */
  function DocumentObject(ns: seq<Value>, eds: seq<Value>): Value {
    JObject([
      Member(CreatorKey, JString(Creator)),
      Member(VersionKey, JString(Version)),
      Member(NodesKey, JArray(ns)),
      Member(EdgesKey, JArray(eds))])
  }

  /** The member words of the header and its two values are plain, so they are written verbatim. */
  lemma HeaderWordsPlain()
    ensures forall i :: 0 <= i < |Creator| ==> IsPrintable(Creator[i])
    ensures forall i :: 0 <= i < |Version| ==> IsPrintable(Version[i])
  {
  }

  /** The header, spelled out (in two halves, for the verifier's sake). */
  lemma OpeningText()
    ensures Opening == "{\"creator\":\"JGraphT JSON Exporter\"," + "\"version\":\"1\",\"nodes\":["
  {
    CreatorKeyQuoted();
    VersionKeyQuoted();
    NodesKeyQuoted();
    HeaderWords();
    OpeningPieces(Quote(CreatorKey), "\"" + Creator + "\"", Quote(VersionKey), "\"" + Version + "\"",
      Quote(NodesKey), Opening);
  }

  lemma CreatorKeyQuoted()
    ensures Quote(CreatorKey) == "\"creator\""
  {
    QuotePlain(CreatorKey);
  }

  lemma VersionKeyQuoted()
    ensures Quote(VersionKey) == "\"version\""
  {
    QuotePlain(VersionKey);
  }

  lemma NodesKeyQuoted()
    ensures Quote(NodesKey) == "\"nodes\""
  {
    QuotePlain(NodesKey);
  }

  lemma HeaderWords()
    ensures "\"" + Creator + "\"" == "\"JGraphT JSON Exporter\""
    ensures "\"" + Version + "\"" == "\"1\""
  {
  }

  // Regrouping step for the verifier: string concatenation is associative; not a property of the model.
  lemma OpeningPieces(qc: string, c: string, qv: string, v: string, qn: string, o: string)
    requires qc == "\"creator\"" && c == "\"JGraphT JSON Exporter\""
    requires qv == "\"version\"" && v == "\"1\"" && qn == "\"nodes\""
    requires o == "{" + qc + ":" + c + "," + qv + ":" + v + "," + qn + ":["
    ensures o == "{\"creator\":\"JGraphT JSON Exporter\"," + "\"version\":\"1\",\"nodes\":["
  {
    var head := "{" + qc + ":" + c + ",";
    var tail := qv + ":" + v + "," + qn + ":[";
    assert head == "{\"creator\":\"JGraphT JSON Exporter\"," by {
      assert "{" + qc + ":" == "{\"creator\":";
    }
    assert tail == "\"version\":\"1\",\"nodes\":[";
    assert o == head + tail;
  }

  /** The text between the node array and the edge array, and after the edges, spelled out. */
  lemma BetweenText()
    ensures Between == "],\"edges\":["
    ensures Closing == "]}"
  {
    QuotePlain(EdgesKey);
  }

  lemma FourMembers(k1: string, x1: string, k2: string, x2: string, k3: string, ns: seq<Value>,
                    k4: string, eds: seq<Value>, w: string)
    requires w == Write(JObject([Member(k1, JString(x1)), Member(k2, JString(x2)),
                                 Member(k3, JArray(ns)), Member(k4, JArray(eds))]))
    ensures w == "{" + Quote(k1) + ":" + Quote(x1) + "," + Quote(k2) + ":" + Quote(x2)
      + "," + Quote(k3) + ":[" + WriteElements(ns) + "]," + Quote(k4) + ":[" + WriteElements(eds) + "]}"
  {
    var m3, m4 := Member(k3, JArray(ns)), Member(k4, JArray(eds));
    ThreeStringObjectArrays(k1, x1, k2, x2, m3, m4, w);
    ArrayConcat(w, WriteMember(m3), WriteMember(m4), Quote(k1), Quote(x1), Quote(k2), Quote(x2),
      Quote(k3), Quote(k4), WriteElements(ns), WriteElements(eds));
  }

  lemma ThreeStringObjectArrays(k1: string, x1: string, k2: string, x2: string, m3: Member, m4: Member, w: string)
    requires w == Write(JObject([Member(k1, JString(x1)), Member(k2, JString(x2)), m3, m4]))
    ensures w == "{" + Quote(k1) + ":" + Quote(x1) + "," + Quote(k2) + ":" + Quote(x2)
      + "," + WriteMember(m3) + "," + WriteMember(m4) + "}"
  {
    var m2 := Member(k2, JString(x2));
    assert [Member(k1, JString(x1)), m2, m3, m4] == [Member(k1, JString(x1))] + ([m2] + ([m3] + [m4]));
    OneStringObject(k1, x1, [m2] + ([m3] + [m4]), w);
    CommaMembersCons(m2, [m3] + [m4]);
    CommaMembersCons(m3, [m4]);
    CommaMembersCons(m4, []);
    StringMemberText(k2, x2);
    ArrayConcatHead(w, CommaMembers([m2] + ([m3] + [m4])), CommaMembers([m3] + [m4]), CommaMembers([m4]),
      CommaMembers([]), Quote(k1), Quote(x1), Quote(k2), Quote(x2), WriteMember(m3), WriteMember(m4));
  }

  // Regrouping step for the verifier: string concatenation is associative; not a property of the model.
  lemma ArrayConcatHead(w: string, c3: string, c2: string, c1: string, c0: string,
                        q1: string, v1: string, q2: string, v2: string, w3: string, w4: string)
    requires w == "{" + q1 + ":" + v1 + c3 + "}"
    requires c3 == "," + (q2 + ":" + v2) + c2 && c2 == "," + w3 + c1 && c1 == "," + w4 + c0 && c0 == ""
    ensures w == "{" + q1 + ":" + v1 + "," + q2 + ":" + v2 + "," + w3 + "," + w4 + "}"
  {
  }

  // Regrouping step for the verifier: string concatenation is associative; not a property of the model.
  lemma ArrayConcat(w: string, w3: string, w4: string, q1: string, v1: string, q2: string, v2: string,
                    q3: string, q4: string, t3: string, t4: string)
    requires w == "{" + q1 + ":" + v1 + "," + q2 + ":" + v2 + "," + w3 + "," + w4 + "}"
    requires w3 == q3 + ":" + ("[" + t3 + "]") && w4 == q4 + ":" + ("[" + t4 + "]")
    ensures w == "{" + q1 + ":" + v1 + "," + q2 + ":" + v2 + "," + q3 + ":[" + t3 + "]," + q4 + ":[" + t4 + "]}"
  {
  }

  /**
   * The exported text: the fixed creator/version header, the node objects in
   * vertex order, then the edge objects in edge order, separated by ','
   * only; and it reads back as the document tree.
   */
  lemma ExportText<V>(vs: seq<V>, es: seq<Edge<V>>, p: Providers<V>)
    requires Export(vs, es, p).Success?
    ensures Document(vs, es, p).Success?
    ensures Export(vs, es, p).value ==
      Opening + WriteElements(Nodes(vs, p.vertexId, p.vertexAttributes).value)
      + Between + WriteElements(Edges(es, p.vertexId, p.edgeId, p.edgeAttributes).value) + Closing
    ensures Parse(Export(vs, es, p).value) == Some(Document(vs, es, p).value)
  {
    var ns := Nodes(vs, p.vertexId, p.vertexAttributes).value;
    var eds := Edges(es, p.vertexId, p.edgeId, p.edgeAttributes).value;
    assert Document(vs, es, p) == Success(DocumentObject(ns, eds));
    HeaderWordsPlain();
    DocumentText(CreatorKey, Creator, VersionKey, Version, NodesKey, EdgesKey, ns, eds,
      Write(DocumentObject(ns, eds)), Opening, Between);
    ParseWrite(DocumentObject(ns, eds));
  }

  /** The document text for any member names and plain creator and version words. */
  lemma DocumentText(k1: string, x1: string, k2: string, x2: string, k3: string, k4: string,
                     ns: seq<Value>, eds: seq<Value>, w: string, o: string, b: string)
    requires forall i :: 0 <= i < |x1| ==> IsPrintable(x1[i])
    requires forall i :: 0 <= i < |x2| ==> IsPrintable(x2[i])
    requires w == Write(JObject([Member(k1, JString(x1)), Member(k2, JString(x2)),
                                 Member(k3, JArray(ns)), Member(k4, JArray(eds))]))
    requires o == "{" + Quote(k1) + ":" + ("\"" + x1 + "\"") + "," + Quote(k2) + ":" + ("\"" + x2 + "\"")
      + "," + Quote(k3) + ":["
    requires b == "]," + Quote(k4) + ":["
    ensures w == o + WriteElements(ns) + b + WriteElements(eds) + "]}"
  {
    FourMembers(k1, x1, k2, x2, k3, ns, k4, eds, w);
    QuotePlain(x1);
    QuotePlain(x2);
    OpeningConcat(w, o, b, WriteElements(ns), WriteElements(eds), Quote(k4));
  }

  // Regrouping step for the verifier: string concatenation is associative; not a property of the model.
  lemma OpeningConcat(w: string, o: string, b: string, tn: string, te: string, qe: string)
    requires w == o + tn + "]," + qe + ":[" + te + "]}" && b == "]," + qe + ":["
    ensures w == o + tn + b + te + Closing
  {
  }

  /** How Export is made of the node and the edge arrays. */
  lemma ExportOfParts<V>(vs: seq<V>, es: seq<Edge<V>>, p: Providers<V>)
    ensures Nodes(vs, p.vertexId, p.vertexAttributes).Failure? ==>
      Export(vs, es, p) == Failure(Nodes(vs, p.vertexId, p.vertexAttributes).error)
    ensures (Nodes(vs, p.vertexId, p.vertexAttributes).Success?
             && Edges(es, p.vertexId, p.edgeId, p.edgeAttributes).Failure?) ==>
      Export(vs, es, p) == Failure(Edges(es, p.vertexId, p.edgeId, p.edgeAttributes).error)
    ensures (Nodes(vs, p.vertexId, p.vertexAttributes).Success?
             && Edges(es, p.vertexId, p.edgeId, p.edgeAttributes).Success?) ==>
      Export(vs, es, p) == Success(Opening + WriteElements(Nodes(vs, p.vertexId, p.vertexAttributes).value)
        + Between + WriteElements(Edges(es, p.vertexId, p.edgeId, p.edgeAttributes).value) + Closing)
  {
    if Export(vs, es, p).Success? {
      ExportText(vs, es, p);
    }
  }

  lemma ExportFails<V>(vs: seq<V>, es: seq<Edge<V>>, p: Providers<V>)
    ensures Export(vs, es, p).Failure? <==>
      (exists i :: 0 <= i < |vs| && !AllFinite(p.vertexAttributes(vs[i])))
      || (exists k :: 0 <= k < |es| && !AllFinite(p.edgeAttributes(k)))
    ensures Export(vs, es, p).Failure? ==>
      (exists i, j :: 0 <= i < |vs| && 0 <= j < |p.vertexAttributes(vs[i])|
          && IsNonFinite(p.vertexAttributes(vs[i])[j].value)
          && Export(vs, es, p).error == NonFiniteNumber(p.vertexAttributes(vs[i])[j].name))
      || (exists k, j :: 0 <= k < |es| && 0 <= j < |p.edgeAttributes(k)|
            && IsNonFinite(p.edgeAttributes(k)[j].value)
            && Export(vs, es, p).error == NonFiniteNumber(p.edgeAttributes(k)[j].name))
  {
    var r := Export(vs, es, p);
    NodesSpec(vs, p.vertexId, p.vertexAttributes);
    EdgesSpec(es, p.vertexId, p.edgeId, p.edgeAttributes);
    if r.Failure? {
      var nodes := Nodes(vs, p.vertexId, p.vertexAttributes);
      if nodes.Failure? {
        var i :| 0 <= i < |vs| && NodeObject(p.vertexId(vs[i]), p.vertexAttributes(vs[i])) == Failure(nodes.error);
        var attrs := p.vertexAttributes(vs[i]);
        var j :| 0 <= j < |attrs| && IsNonFinite(attrs[j].value) && EncodeEntries(attrs).error == NonFiniteNumber(attrs[j].name);
      } else {
        var edges := Edges(es, p.vertexId, p.edgeId, p.edgeAttributes);
        var k :| 0 <= k < |es| && EdgeAt(es, k, p.vertexId, p.edgeId, p.edgeAttributes) == Failure(edges.error);
        var attrs := p.edgeAttributes(k);
        var j :| 0 <= j < |attrs| && IsNonFinite(attrs[j].value) && EncodeEntries(attrs).error == NonFiniteNumber(attrs[j].name);
      }
    }
  }
}
