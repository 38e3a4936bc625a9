// Redaction of a JSON text: parse it into a tree, rewrite the tree in place, print it again.
module RedactionText {
  import opened Wrappers
  import opened SnakeCase
  import opened Redaction

  /** Parsing and printing of JSON text; both may fail. */
  datatype Codec = Codec(unmarshal: string -> Option<Json>, marshal: Json -> Option<string>)

  /** What has been parsed and redacted can be printed, and the print reads back as that value. Only
      objects and arrays are ever printed. */
  ghost predicate Lawful(c: Codec) {
    forall raw | c.unmarshal(raw).Some? && Composite(c.unmarshal(raw).value) ::
      PrintsBack(c, Redact(c.unmarshal(raw).value))
  }

  predicate Composite(j: Json) {
    j.JObject? || j.JArray?
  }

  predicate PrintsBack(c: Codec, j: Json) {
    c.marshal(j).Some? && c.marshal(j).value != "" && c.unmarshal(c.marshal(j).value) == Some(j)
  }

  // ---------------------------------------------------------------- the parser's tree

  ghost predicate Siblings<K(!new)>(node: object, below: set<object>, parts: map<K, Layout>) {
    && node in below
    && (forall k | k in parts.Keys :: IsTree(parts[k]) && Nodes(parts[k]) <= below - {node})
    && (forall k, l | k in parts.Keys && l in parts.Keys && k != l :: Nodes(parts[k]) !! Nodes(parts[l]))
  }

  lemma OneMoreSibling<K(!new)>(node: object, below: set<object>, parts: map<K, Layout>, k: K, t: Layout)
    requires Siblings(node, below, parts) && k !in parts && IsTree(t) && Nodes(t) !! below
    ensures Siblings(node, below + Nodes(t), parts[k := t])
  {
    hide IsTree, Nodes;
  }

  lemma ObjectBuilt(node: ObjectNode, t: Layout, j: Json)
    requires t.ObjectAt? && t.node == node && Siblings(node, t.below, t.fields)
    requires j.JObject? && node.fields.Keys == t.fields.Keys == j.fields.Keys
    requires forall k | k in t.fields.Keys :: Holds(node.fields[k], t.fields[k], j.fields[k])
    ensures IsTree(t) && Holds(Object(node), t, j)
  {}

  function ByIndex(parts: seq<Layout>): map<int, Layout> {
    map i | 0 <= i < |parts| :: parts[i]
  }

  lemma ArrayBuilt(elements: array<Value>, t: Layout, j: Json)
    requires t.ArrayAt? && t.elements == elements && Siblings(elements, t.below, ByIndex(t.items))
    requires j.JArray? && elements.Length == |t.items| == |j.items|
    requires forall i | 0 <= i < |t.items| :: Holds(elements[i], t.items[i], j.items[i])
    ensures IsTree(t) && Holds(Array(elements), t, j)
  {
    assert forall i | 0 <= i < |t.items| :: i in ByIndex(t.items).Keys && ByIndex(t.items)[i] == t.items[i];
  }

  method BuildObject(j: Json) returns (v: Value, ghost t: Layout)
    requires j.JObject?
    ensures fresh(Nodes(t)) && IsTree(t) && Holds(v, t, j)
    decreases j, 0
  {
    hide Holds, IsTree;
    var fields := j.fields;
    var node := new ObjectNode(map[]);
    ghost var parts: map<string, Layout> := map[];
    ghost var below: set<object> := {node};
    var todo := fields.Keys;
    while todo != {}
      invariant todo <= fields.Keys
      invariant node.fields.Keys == parts.Keys == fields.Keys - todo
      invariant Siblings(node, below, parts) && fresh(below)
      invariant forall k | k in parts.Keys :: Holds(node.fields[k], parts[k], fields[k])
      decreases todo
    {
      var k :| k in todo;
      todo := todo - {k};
      label before:
      ghost var same := node.fields;
      var field, part := Build(j.fields[k]);
      label built:
      OneMoreSibling(node, below, parts, k, part);
      forall l | l in parts.Keys ensures Holds(same[l], parts[l], fields[l]) {
        assert old@before(Holds(same[l], parts[l], fields[l]));
      }
      node.fields := node.fields[k := field];
      forall l | l in parts.Keys ensures Holds(same[l], parts[l], fields[l]) {
        assert old@built(Holds(same[l], parts[l], fields[l]));
      }
      assert Holds(field, part, fields[k]) by {
        assert old@built(Holds(field, part, fields[k]));
      }
      parts := parts[k := part];
      below := below + Nodes(part);
    }
    v, t := Object(node), ObjectAt(node, below, parts);
    ObjectBuilt(node, t, j);
  }

  method BuildArray(j: Json) returns (v: Value, ghost t: Layout)
    requires j.JArray?
    ensures fresh(Nodes(t)) && IsTree(t) && Holds(v, t, j)
    decreases j, 0
  {
    hide Holds, IsTree;
    var items := j.items;
    var elements := new Value[|items|](_ => Null);
    ghost var parts: seq<Layout> := [];
    ghost var below: set<object> := {elements};
    for i := 0 to |items|
      invariant |parts| == i
      invariant Siblings(elements, below, ByIndex(parts)) && fresh(below)
      invariant forall k | 0 <= k < i :: Holds(elements[k], parts[k], items[k])
    {
      label before:
      ghost var same := elements[..];
      var element, part := Build(j.items[i]);
      label built:
      OneMoreSibling(elements, below, ByIndex(parts), i, part);
      assert ByIndex(parts + [part]) == ByIndex(parts)[i := part];
      forall k | 0 <= k < i ensures Holds(same[k], parts[k], items[k]) {
        assert parts[k] == ByIndex(parts)[k];
        assert old@before(Holds(same[k], parts[k], items[k]));
      }
      elements[i] := element;
      forall k | 0 <= k < i ensures Holds(same[k], parts[k], items[k]) {
        assert parts[k] == ByIndex(parts)[k];
        assert old@built(Holds(same[k], parts[k], items[k]));
      }
      assert Holds(element, part, items[i]) by {
        assert old@built(Holds(element, part, items[i]));
      }
      parts := parts + [part];
      below := below + Nodes(part);
    }
    v, t := Array(elements), ArrayAt(elements, below, parts);
    ArrayBuilt(elements, t, j);
  }

  method Build(j: Json) returns (v: Value, ghost t: Layout)
    ensures fresh(Nodes(t)) && IsTree(t) && Holds(v, t, j)
    decreases j, 1
  {
    match j
    case JNull => v, t := Null, Leaf;
    case JBool(b) => v, t := Bool(b), Leaf;
    case JNumber(n) => v, t := Number(n), Leaf;
    case JString(s) => v, t := Text(s), Leaf;
    case JObject(_) => v, t := BuildObject(j);
    case JArray(_) => v, t := BuildArray(j);
  }

  // ---------------------------------------------------------------- reading the tree back

  method ReadObject(node: ObjectNode, ghost t: Layout, ghost j: Json) returns (out: Json)
    requires IsTree(t) && Holds(Object(node), t, j)
    ensures out == j
    decreases t, 0
  {
    ObjectParts(node, t, j);
    hide Holds, IsTree;
    var fields: map<string, Json> := map[];
    var todo := node.fields.Keys;
    while todo != {}
      invariant todo <= node.fields.Keys && fields.Keys == node.fields.Keys - todo
      invariant forall k | k in fields.Keys :: fields[k] == j.fields[k]
      decreases todo
    {
      var k :| k in todo;
      todo := todo - {k};
      var field := ReadValue(node.fields[k], t.fields[k], j.fields[k]);
      fields := fields[k := field];
    }
    assert fields == j.fields;
    return JObject(fields);
  }

  method ReadArray(elements: array<Value>, ghost t: Layout, ghost j: Json) returns (out: Json)
    requires IsTree(t) && Holds(Array(elements), t, j)
    ensures out == j
    decreases t, 0
  {
    ArrayParts(elements, t, j);
    hide Holds, IsTree;
    var items: seq<Json> := [];
    for i := 0 to elements.Length
      invariant items == j.items[..i]
    {
      var item := ReadValue(elements[i], t.items[i], j.items[i]);
      items := items + [item];
    }
    return JArray(items);
  }

  method ReadValue(v: Value, ghost t: Layout, ghost j: Json) returns (out: Json)
    requires IsTree(t) && Holds(v, t, j)
    ensures out == j
    decreases t, 1
  {
    match v
    case Object(node) => out := ReadObject(node, t, j);
    case Array(elements) => out := ReadArray(elements, t, j);
    case _ => out := Scalar(v);
  }

  // ---------------------------------------------------------------- texts

  /** A text that is empty, does not parse, is no object or array, or cannot be printed back is
      returned as it came. */
  function RedactText(c: Codec, raw: string): string {
    if raw == "" then raw
    else
      match c.unmarshal(raw)
      case None => raw
      case Some(j) =>
        if !j.JObject? && !j.JArray? then raw
        else if c.marshal(Redact(j)).Some? then c.marshal(Redact(j)).value else raw
  }

  lemma {:induction false} PrunedIsTree(t: Layout)
    requires IsTree(t)
    ensures IsTree(Pruned(t))
  {
    hide Sensitive;
    match t
    case Leaf =>
    case ObjectAt(node, below, fields) =>
      forall k | k in fields.Keys ensures IsTree(Pruned(fields[k])) {
        PrunedIsTree(fields[k]);
      }
    case ArrayAt(elements, below, items) =>
      forall i | 0 <= i < |items| ensures IsTree(Pruned(items[i])) {
        PrunedIsTree(items[i]);
      }
  }

  /** Which texts are replaced: those that parse to an object or an array whose redaction prints. */
  lemma ReplacedExactly(c: Codec, raw: string)
    ensures raw == "" || c.unmarshal(raw).None? ==> RedactText(c, raw) == raw
    ensures raw != "" && c.unmarshal(raw).Some? ==>
      var redacted := Redact(c.unmarshal(raw).value);
      RedactText(c, raw) == if (redacted.JObject? || redacted.JArray?) && c.marshal(redacted).Some?
                            then c.marshal(redacted).value else raw
  {}

  method RedactJSON(c: Codec, raw: string) returns (out: string)
    ensures out == RedactText(c, raw)
  {
    hide IsTree, Holds, Pruned, Redact;
    if |raw| == 0 {
      return raw;
    }
    var value := c.unmarshal(raw);
    if value.None? {
      return raw;
    }
    var v, t := Build(value.value);
    SameKind(v, t, value.value);
    var redacted, changed := RedactValue(v, t, value.value);
    if !changed {
      return raw;
    }
    PrunedIsTree(t);
    var j := ReadValue(redacted, Pruned(t), Redact(value.value));
    var printed := c.marshal(j);
    if printed.None? {
      return raw;
    }
    return printed.value;
  }

  lemma SameKind(v: Value, t: Layout, j: Json)
    requires Holds(v, t, j)
    ensures (v.Object? <==> j.JObject?) && (v.Array? <==> j.JArray?)
  {}

  /** A text that parses comes back as a text whose every sensitive key holds the placeholder, of the
      same shape, and reading as the redacted value; any other text comes back unchanged. */
  lemma TextIsRedacted(c: Codec, raw: string)
    requires Lawful(c)
    ensures raw != "" && c.unmarshal(raw).Some? ==>
      var j := c.unmarshal(raw).value;
      && c.unmarshal(RedactText(c, raw)) == Some(Redact(j))
      && Clean(Redact(j)) && SameShape(j, Redact(j))
    ensures raw == "" || c.unmarshal(raw).None? ==> RedactText(c, raw) == raw
  {
    if raw != "" && c.unmarshal(raw).Some? {
      var j := c.unmarshal(raw).value;
      RedactedIsClean(j);
      assert Composite(j) ==> PrintsBack(c, Redact(j));
    }
  }

  /** Redacting a text again changes nothing, character for character. */
  lemma TextIdempotent(c: Codec, raw: string)
    requires Lawful(c)
    ensures RedactText(c, RedactText(c, raw)) == RedactText(c, raw)
  {
    if raw != "" && c.unmarshal(raw).Some? {
      TextIsRedacted(c, raw);
      Idempotent(c.unmarshal(raw).value);
    }
  }

  // ---------------------------------------------------------------- a codec that obeys the law

  const OPEN := "{\"pin\":\""
  const CLOSE := "\"}"

  predicate Plain(s: string) {
    '"' !in s && '\\' !in s
  }

  /** JSON objects with a pin alone, written without escapes. */
  function UnmarshalPin(raw: string): Option<Json> {
    if |raw| >= |OPEN| + |CLOSE| && raw[..|OPEN|] == OPEN && raw[|raw| - |CLOSE|..] == CLOSE
       && Plain(raw[|OPEN|..|raw| - |CLOSE|])
    then Some(JObject(map["pin" := JString(raw[|OPEN|..|raw| - |CLOSE|])])) else None
  }

  function MarshalPin(j: Json): Option<string> {
    if j.JObject? && j.fields.Keys == {"pin"} && j.fields["pin"].JString? && Plain(j.fields["pin"].s)
    then Some(OPEN + j.fields["pin"].s + CLOSE) else None
  }

  const PIN_CODEC := Codec(UnmarshalPin, MarshalPin)

  lemma PinReadsBack(pin: string)
    requires Plain(pin)
    ensures UnmarshalPin(OPEN + pin + CLOSE) == Some(JObject(map["pin" := JString(pin)]))
  {
    var raw := OPEN + pin + CLOSE;
    assert raw[..|OPEN|] == OPEN && raw[|raw| - |CLOSE|..] == CLOSE && raw[|OPEN|..|raw| - |CLOSE|] == pin;
  }

  /** The law can be met, and a pin is masked under it. */
  lemma PinCodecIsLawful(pin: string)
    requires Plain(pin)
    ensures Lawful(PIN_CODEC)
    ensures RedactText(PIN_CODEC, OPEN + pin + CLOSE) == OPEN + REDACTED + CLOSE
  {
    PinIsMasked(pin);
    PinReadsBack(pin);
    PinReadsBack(REDACTED);
    forall raw | UnmarshalPin(raw).Some? ensures PrintsBack(PIN_CODEC, Redact(UnmarshalPin(raw).value)) {
      PinIsMasked(UnmarshalPin(raw).value.fields["pin"].s);
    }
  }

  lemma PinIsMasked(pin: string)
    ensures Redact(JObject(map["pin" := JString(pin)])) == JObject(map["pin" := JString(REDACTED)])
    ensures MarshalPin(JObject(map["pin" := JString(REDACTED)])) == Some(OPEN + REDACTED + CLOSE)
  {
    assert ToLower("pin") == "pin";
    assert Sensitive("pin");
    var fields := map["pin" := JString(REDACTED)];
    assert Redact(JObject(map["pin" := JString(pin)])).fields == fields;
    assert fields.Keys == {"pin"} && Plain(REDACTED);
  }
}
