// Audit redaction: an in-place walk over a parsed JSON tree that overwrites whatever is stored
// under a sensitive key.
module Redaction {
  import opened SnakeCase

  datatype Json =
    | JNull
    | JBool(b: bool)
    | JNumber(n: real)
    | JString(s: string)
    | JObject(fields: map<string, Json>)
    | JArray(items: seq<Json>)

  const REDACTED := "[REDACTED]"

  /** What redaction means, on values. */
  function Redact(j: Json): Json {
    match j
    case JObject(fields) =>
      JObject(map k | k in fields :: if Sensitive(k) then JString(REDACTED) else Redact(fields[k]))
    case JArray(items) => JArray(seq(|items|, i requires 0 <= i < |items| => Redact(items[i])))
    case _ => j
  }

  // ---------------------------------------------------------------- what it hides and keeps

  /** The two values are the same wherever no sensitive key is passed on the way. */
  ghost predicate AgreeOutside(a: Json, b: Json) {
    match (a, b)
    case (JObject(f), JObject(g)) =>
      f.Keys == g.Keys && forall k | k in f.Keys && !Sensitive(k) :: AgreeOutside(f[k], g[k])
    case (JArray(x), JArray(y)) =>
      |x| == |y| && forall i | 0 <= i < |x| :: AgreeOutside(x[i], y[i])
    case _ => a == b
  }

  /** Redaction hides exactly what is stored under sensitive keys. */
  lemma {:induction false} RedactionKernel(a: Json, b: Json)
    ensures Redact(a) == Redact(b) <==> AgreeOutside(a, b)
  {
    match (a, b)
    case (JObject(f), JObject(g)) =>
      forall k | k in f.Keys && k in g.Keys
        ensures Redact(f[k]) == Redact(g[k]) <==> AgreeOutside(f[k], g[k])
      {
        RedactionKernel(f[k], g[k]);
      }
      ObjectKernel(a, b);
    case (JArray(x), JArray(y)) =>
      forall i | 0 <= i < |x| && i < |y|
        ensures Redact(x[i]) == Redact(y[i]) <==> AgreeOutside(x[i], y[i])
      {
        RedactionKernel(x[i], y[i]);
      }
      ArrayKernel(a, b);
    case _ =>
  }

  lemma {:induction false} ObjectKernel(a: Json, b: Json)
    requires a.JObject? && b.JObject?
    requires forall k | k in a.fields.Keys && k in b.fields.Keys ::
        Redact(a.fields[k]) == Redact(b.fields[k]) <==> AgreeOutside(a.fields[k], b.fields[k])
    ensures Redact(a) == Redact(b) <==> AgreeOutside(a, b)
  {
    hide Sensitive;
    var f, g, rf, rg := a.fields, b.fields, Redact(a).fields, Redact(b).fields;
    assert rf.Keys == f.Keys && rg.Keys == g.Keys;
    if Redact(a) == Redact(b) {
      forall k | k in f.Keys && !Sensitive(k) ensures AgreeOutside(f[k], g[k]) {
        assert rf[k] == rg[k];
      }
    }
    if AgreeOutside(a, b) {
      assert rf == rg;
    }
  }

  lemma {:induction false} ArrayKernel(a: Json, b: Json)
    requires a.JArray? && b.JArray?
    requires forall i | 0 <= i < |a.items| && i < |b.items| ::
        Redact(a.items[i]) == Redact(b.items[i]) <==> AgreeOutside(a.items[i], b.items[i])
    ensures Redact(a) == Redact(b) <==> AgreeOutside(a, b)
  {
    hide Sensitive;
    var x, y, rx, ry := a.items, b.items, Redact(a).items, Redact(b).items;
    if Redact(a) == Redact(b) {
      assert |x| == |rx| == |ry| == |y|;
      forall i | 0 <= i < |x| ensures AgreeOutside(x[i], y[i]) {
        assert rx[i] == ry[i];
      }
    }
    if AgreeOutside(a, b) {
      assert rx == ry;
    }
  }

  /** At every depth each sensitive key holds the placeholder. */
  ghost predicate Clean(j: Json) {
    match j
    case JObject(fields) =>
      forall k | k in fields :: if Sensitive(k) then fields[k] == JString(REDACTED) else Clean(fields[k])
    case JArray(items) => forall i | 0 <= i < |items| :: Clean(items[i])
    case _ => true
  }

  /** The same keys and lengths everywhere above the sensitive keys. */
  ghost predicate SameShape(a: Json, b: Json) {
    match (a, b)
    case (JObject(f), JObject(g)) =>
      f.Keys == g.Keys && forall k | k in f.Keys && !Sensitive(k) :: SameShape(f[k], g[k])
    case (JArray(x), JArray(y)) => |x| == |y| && forall i | 0 <= i < |x| :: SameShape(x[i], y[i])
    case (JObject(_), _) => false
    case (JArray(_), _) => false
    case _ => a == b
  }

  lemma {:induction false} RedactedIsClean(j: Json)
    ensures Clean(Redact(j)) && SameShape(j, Redact(j))
  {
    match j
    case JObject(fields) =>
      forall k | k in fields ensures Clean(Redact(fields[k])) && SameShape(fields[k], Redact(fields[k])) {
        RedactedIsClean(fields[k]);
      }
    case JArray(items) =>
      forall i | 0 <= i < |items| ensures Clean(Redact(items[i])) && SameShape(items[i], Redact(items[i])) {
        RedactedIsClean(items[i]);
      }
    case _ =>
  }

  /** Redaction leaves alone exactly the values that are already clean. */
  lemma {:induction false} FixedPoints(j: Json)
    ensures Redact(j) == j <==> Clean(j)
  {
    RedactedIsClean(j);
    if Clean(j) {
      match j
      case JObject(fields) =>
        forall k | k in fields && !Sensitive(k) ensures Redact(fields[k]) == fields[k] {
          FixedPoints(fields[k]);
        }
        assert Redact(j).fields == fields;
      case JArray(items) =>
        forall i | 0 <= i < |items| ensures Redact(items[i]) == items[i] {
          FixedPoints(items[i]);
        }
        assert Redact(j).items == items;
      case _ =>
    }
  }

  lemma Idempotent(j: Json)
    ensures Redact(Redact(j)) == Redact(j)
  {
    RedactedIsClean(j);
    FixedPoints(Redact(j));
  }

  // ---------------------------------------------------------------- the tree in memory

  class ObjectNode {
    var fields: map<string, Value>

    constructor (fields: map<string, Value>)
      ensures this.fields == fields
    {
      this.fields := fields;
    }
  }

  datatype Value =
    | Null
    | Bool(b: bool)
    | Number(n: real)
    | Text(s: string)
    | Object(node: ObjectNode)
    | Array(elements: array<Value>)

  /** Where a value lies: its own node, every node at or below it, and the same for its children. */
  datatype Layout =
    | Leaf
    | ObjectAt(node: ObjectNode, below: set<object>, fields: map<string, Layout>)
    | ArrayAt(elements: array<Value>, below: set<object>, items: seq<Layout>)

  function Nodes(t: Layout): set<object> {
    if t.Leaf? then {} else t.below
  }

  /** No node is reached twice: what parsing a JSON text produces. */
  ghost predicate IsTree(t: Layout) {
    match t
    case Leaf => true
    case ObjectAt(node, below, fields) =>
      && node in below
      && (forall k | k in fields.Keys :: IsTree(fields[k]) && Nodes(fields[k]) <= below - {node})
      && (forall k, l | k in fields.Keys && l in fields.Keys && k != l :: Nodes(fields[k]) !! Nodes(fields[l]))
    case ArrayAt(elements, below, items) =>
      && elements in below
      && (forall i | 0 <= i < |items| :: IsTree(items[i]) && Nodes(items[i]) <= below - {elements})
      && (forall i, l | 0 <= i < |items| && 0 <= l < |items| && i != l :: Nodes(items[i]) !! Nodes(items[l]))
  }

  function Scalar(v: Value): Json
    requires !v.Object? && !v.Array?
  {
    match v
    case Null => JNull
    case Bool(b) => JBool(b)
    case Number(n) => JNumber(n)
    case Text(s) => JString(s)
  }

  /** The value, laid out like this, reads as j. */
  ghost predicate Holds(v: Value, t: Layout, j: Json)
    reads Nodes(t)
    decreases t
  {
    match t
    case Leaf => !v.Object? && !v.Array? && j == Scalar(v)
    case ObjectAt(node, below, fields) =>
      && v == Object(node) && j.JObject? && node in below
      && node.fields.Keys == fields.Keys == j.fields.Keys
      && forall k | k in fields.Keys :: Nodes(fields[k]) <= below && Holds(node.fields[k], fields[k], j.fields[k])
    case ArrayAt(elements, below, items) =>
      && v == Array(elements) && j.JArray? && elements in below
      && elements.Length == |items| == |j.items|
      && forall i | 0 <= i < |items| :: Nodes(items[i]) <= below && Holds(elements[i], items[i], j.items[i])
  }

  /** The layout once sensitive values have been replaced by text. */
  function Pruned(t: Layout): (r: Layout)
    ensures Nodes(r) == Nodes(t)
  {
    match t
    case Leaf => Leaf
    case ObjectAt(node, below, fields) =>
      ObjectAt(node, below, map k | k in fields.Keys :: if Sensitive(k) then Leaf else Pruned(fields[k]))
    case ArrayAt(elements, below, items) =>
      ArrayAt(elements, below, seq(|items|, i requires 0 <= i < |items| => Pruned(items[i])))
  }

  /** Rewrites the value in place; the result is the same reference. `t` and `j` only name, for
      the proof, where the value lies and what it reads as. */
  method RedactValue(v: Value, ghost t: Layout, ghost j: Json) returns (r: Value, changed: bool)
    requires IsTree(t) && Holds(v, t, j)
    modifies Nodes(t)
    ensures r == v && (changed <==> v.Object? || v.Array?)
    ensures Holds(r, Pruned(t), Redact(j))
    decreases t, 1
  {
    match v
    case Object(node) =>
      RedactMap(node, t, j);
      return v, true;
    case Array(elements) =>
      RedactItems(elements, t, j);
      return v, true;
    case _ =>
      return v, false;
  }

  // The parts of a value that Holds, and back. The loops below see Holds only through these.

  lemma ArrayParts(elements: array<Value>, t: Layout, j: Json)
    requires IsTree(t) && Holds(Array(elements), t, j)
    ensures t.ArrayAt? && t.elements == elements && elements in t.below && j.JArray?
    ensures elements.Length == |t.items| == |j.items|
    ensures forall i | 0 <= i < |t.items| ::
        Holds(elements[i], t.items[i], j.items[i]) && IsTree(t.items[i]) && Nodes(t.items[i]) <= t.below - {elements}
    ensures forall i, l | 0 <= i < |t.items| && 0 <= l < |t.items| && i != l :: Nodes(t.items[i]) !! Nodes(t.items[l])
  {}

  lemma RedactedArrayHolds(elements: array<Value>, t: Layout, j: Json)
    requires t.ArrayAt? && t.elements == elements && elements in t.below && j.JArray?
    requires elements.Length == |t.items| == |j.items|
    requires forall i | 0 <= i < |t.items| ::
        Nodes(t.items[i]) <= t.below && Holds(elements[i], Pruned(t.items[i]), Redact(j.items[i]))
    ensures Holds(Array(elements), Pruned(t), Redact(j))
  {}

  lemma ObjectParts(node: ObjectNode, t: Layout, j: Json)
    requires IsTree(t) && Holds(Object(node), t, j)
    ensures t.ObjectAt? && t.node == node && node in t.below && j.JObject?
    ensures node.fields.Keys == t.fields.Keys && j.fields.Keys == t.fields.Keys
    ensures forall k | k in t.fields.Keys ::
        Holds(node.fields[k], t.fields[k], j.fields[k]) && IsTree(t.fields[k]) && Nodes(t.fields[k]) <= t.below - {node}
    ensures forall k, l | k in t.fields.Keys && l in t.fields.Keys && k != l :: Nodes(t.fields[k]) !! Nodes(t.fields[l])
  {}

  /** The layout of a field, and what it reads as, once the loop has been there. */
  function PrunedField(k: string, t: Layout): (r: Layout)
    ensures Nodes(r) <= Nodes(t)
  {
    if Sensitive(k) then Leaf else Pruned(t)
  }

  function RedactedField(k: string, j: Json): Json {
    if Sensitive(k) then JString(REDACTED) else Redact(j)
  }

  lemma RedactedObjectHolds(node: ObjectNode, t: Layout, j: Json)
    requires t.ObjectAt? && t.node == node && node in t.below && j.JObject?
    requires node.fields.Keys == t.fields.Keys && j.fields.Keys == t.fields.Keys
    requires forall k | k in t.fields.Keys ::
        && Nodes(t.fields[k]) <= t.below
        && Holds(node.fields[k], PrunedField(k, t.fields[k]), RedactedField(k, j.fields[k]))
    ensures Holds(Object(node), Pruned(t), Redact(j))
  {
    hide Sensitive;
    var t', j' := Pruned(t), Redact(j);
    forall k | k in t'.fields.Keys
      ensures Nodes(t'.fields[k]) <= t'.below && Holds(node.fields[k], t'.fields[k], j'.fields[k])
    {
      assert t'.fields[k] == PrunedField(k, t.fields[k]) && j'.fields[k] == RedactedField(k, j.fields[k]);
    }
  }

  lemma FieldIsDone(k: string, v: Value, t: Layout, j: Json)
    requires if Sensitive(k) then v == Text(REDACTED) else Holds(v, Pruned(t), Redact(j))
    ensures Holds(v, PrunedField(k, t), RedactedField(k, j))
  {}

  method RedactItems(elements: array<Value>, ghost t: Layout, ghost j: Json)
    requires IsTree(t) && Holds(Array(elements), t, j)
    modifies Nodes(t)
    ensures Holds(Array(elements), Pruned(t), Redact(j))
    decreases t, 0
  {
    hide Holds, IsTree, Pruned, Redact;
    ArrayParts(elements, t, j);
    for i := 0 to elements.Length
      invariant forall k | 0 <= k < i :: Holds(elements[k], Pruned(t.items[k]), Redact(j.items[k]))
      invariant forall k | i <= k < elements.Length :: Holds(elements[k], t.items[k], j.items[k])
    {
      label turn:
      ghost var same := elements[..];
      var redacted, changed := RedactValue(elements[i], t.items[i], j.items[i]);
      label rewritten:
      if changed {
        elements[i] := redacted;
      }
      assert elements[..] == same;
      forall k | 0 <= k <= i ensures Holds(elements[k], Pruned(t.items[k]), Redact(j.items[k])) {
        if k == i {
          assert old@rewritten(Holds(same[k], Pruned(t.items[k]), Redact(j.items[k])));
        } else {
          assert old@turn(Holds(same[k], Pruned(t.items[k]), Redact(j.items[k])));
        }
      }
      forall k | i < k < elements.Length ensures Holds(elements[k], t.items[k], j.items[k]) {
        assert old@turn(Holds(same[k], t.items[k], j.items[k]));
      }
    }
    RedactedArrayHolds(elements, t, j);
  }

  /** The keys are visited in whatever order they come. */
  method RedactMap(node: ObjectNode, ghost t: Layout, ghost j: Json)
    requires IsTree(t) && Holds(Object(node), t, j)
    modifies Nodes(t)
    ensures Holds(Object(node), Pruned(t), Redact(j))
    decreases t, 0
  {
    hide Holds, IsTree, Pruned, Redact, PrunedField, RedactedField, Sensitive;
    ObjectParts(node, t, j);
    var todo := node.fields.Keys;
    while todo != {}
      invariant todo <= t.fields.Keys && node.fields.Keys == t.fields.Keys
      invariant forall k | k in t.fields.Keys && k !in todo ::
          Holds(node.fields[k], PrunedField(k, t.fields[k]), RedactedField(k, j.fields[k]))
      invariant forall k | k in todo :: Holds(node.fields[k], t.fields[k], j.fields[k])
      decreases todo
    {
      var k :| k in todo;
      label turn:
      ghost var same, before, touched := node.fields, todo, Nodes(t.fields[k]);
      todo := todo - {k};
      RedactField(node, k, t.fields[k], j.fields[k]);
      forall l | l in t.fields.Keys && l !in before
        ensures Holds(node.fields[l], PrunedField(l, t.fields[l]), RedactedField(l, j.fields[l]))
      {
        assert Nodes(t.fields[l]) !! touched;
        assert old@turn(Holds(same[l], PrunedField(l, t.fields[l]), RedactedField(l, j.fields[l])));
      }
      forall l | l in todo ensures Holds(node.fields[l], t.fields[l], j.fields[l]) {
        assert Nodes(t.fields[l]) !! touched;
        assert old@turn(Holds(same[l], t.fields[l], j.fields[l]));
      }
    }
    RedactedObjectHolds(node, t, j);
  }

  /** The body of the loop over the keys. */
  method RedactField(node: ObjectNode, k: string, ghost t: Layout, ghost j: Json)
    requires k in node.fields && node !in Nodes(t)
    requires IsTree(t) && Holds(node.fields[k], t, j)
    modifies node, Nodes(t)
    ensures node.fields.Keys == old(node.fields.Keys)
    ensures forall l | l in node.fields.Keys && l != k :: node.fields[l] == old(node.fields[l])
    ensures Holds(node.fields[k], PrunedField(k, t), RedactedField(k, j))
    decreases t, 2
  {
    hide Holds, IsTree, Pruned, Redact, PrunedField, RedactedField, Sensitive;
    var sensitive := IsSensitive(k);
    if sensitive {
      node.fields := node.fields[k := Text(REDACTED)];
    } else {
      var redacted, changed := RedactValue(node.fields[k], t, j);
      if changed {
        node.fields := node.fields[k := redacted];
      }
    }
    FieldIsDone(k, node.fields[k], t, j);
  }
}
