/** What the template builder promises, stated against an independent reading of the template: the
    field elements of a template in document order (the children of the root, a `sequence`
    replaced by its element children, `typeRef` and non-elements dropped). The template's
    instructions are exactly the instructions of those field elements, in that order, and the
    template fails exactly when one of them does. */
module FastTemplateProperties {
  import opened Wrappers
  import opened FastTemplate

  /** The elements among `nodes`, in order. */
  function ElementsOf(nodes: seq<XmlNode>): (es: seq<XmlNode>)
    ensures forall i | 0 <= i < |es| :: es[i].Element?
    decreases |nodes|
  {
    if nodes == [] then []
    else ElementsOf(nodes[..|nodes| - 1]) + (if nodes[|nodes| - 1].Element? then [nodes[|nodes| - 1]] else [])
  }

  /** The field elements one child of the template root stands for. */
  function NodeFields(node: XmlNode): (es: seq<XmlNode>)
    ensures forall i | 0 <= i < |es| :: es[i].Element?
  {
    if !node.Element? then []
    else if node.tag == "sequence" then ElementsOf(node.children)
    else if node.tag == "typeRef" then []
    else [node]
  }

  /** The field elements of a template whose root has children `nodes`, in document order. */
  function Expanded(nodes: seq<XmlNode>): (es: seq<XmlNode>)
    ensures forall i | 0 <= i < |es| :: es[i].Element?
    decreases |nodes|
  {
    if nodes == [] then []
    else Expanded(nodes[..|nodes| - 1]) + NodeFields(nodes[|nodes| - 1])
  }

  /** None of these field elements would reach the `unwrap` of its id. */
  predicate AllFieldsSafe(fields: seq<XmlNode>)
  {
    forall i | 0 <= i < |fields| :: fields[i].Element? && FieldSafe(fields[i])
  }

  /** The instructions of the field elements, one each and in order, or `S1` if any fails. */
  function AllFromTemplate(fields: seq<XmlNode>): (r: Result<seq<FieldInstruction>, StaticError>)
    requires AllFieldsSafe(fields)
    ensures r.Success? ==> |r.value| == |fields|
  {
    if forall i | 0 <= i < |fields| :: FromTemplate(fields[i]).Success?
    then Success(seq(|fields|, i requires 0 <= i < |fields| => FromTemplate(fields[i]).value))
    else Failure(S1)
  }

  /** Both parts of a safe run of field elements are safe. */
  lemma AllFieldsSafeSplit(a: seq<XmlNode>, b: seq<XmlNode>)
    requires AllFieldsSafe(a + b)
    ensures AllFieldsSafe(a) && AllFieldsSafe(b)
  {
    assert forall i | 0 <= i < |a| :: (a + b)[i] == a[i];
    assert forall i | 0 <= i < |b| :: (a + b)[|a| + i] == b[i];
  }

  /** A single field element contributes its own instruction. */
  lemma AllFromTemplateSingle(x: XmlNode)
    requires x.Element? && FieldSafe(x)
    ensures AllFieldsSafe([x])
    ensures AllFromTemplate([x]) == match FromTemplate(x) case Failure(e) => Failure(e) case Success(i) => Success([i])
  {
    assert [x][0] == x;
    if FromTemplate(x).Success? {
      assert AllFromTemplate([x]).value == [FromTemplate(x).value];
    }
  }

  /** The instructions of two runs of field elements, one after the other. */
  lemma AllFromTemplateAppend(a: seq<XmlNode>, b: seq<XmlNode>)
    requires AllFieldsSafe(a) && AllFieldsSafe(b)
    ensures AllFieldsSafe(a + b)
    ensures AllFromTemplate(a + b) ==
              match AllFromTemplate(a)
              case Failure(e) => Failure(e)
              case Success(x) =>
                match AllFromTemplate(b)
                case Failure(e) => Failure(e)
                case Success(y) => Success(x + y)
  {
    var ab := a + b;
    assert forall i | 0 <= i < |a| :: ab[i] == a[i];
    assert forall i | 0 <= i < |b| :: ab[|a| + i] == b[i];
    if AllFromTemplate(a).Success? && AllFromTemplate(b).Success? {
      assert AllFromTemplate(ab).value == AllFromTemplate(a).value + AllFromTemplate(b).value;
    } else if AllFromTemplate(a).Failure? {
      var i :| 0 <= i < |a| && FromTemplate(a[i]).Failure?;
      assert FromTemplate(ab[i]).Failure?;
    } else {
      var i :| 0 <= i < |b| && FromTemplate(b[i]).Failure?;
      assert FromTemplate(ab[|a| + i]).Failure?;
    }
  }

  /** Inside a `sequence`, the instructions are those of its element children. */
  lemma {:induction false} SequenceIsElements(nodes: seq<XmlNode>)
    requires AllFieldsSafe(ElementsOf(nodes))
    ensures ListSafe(nodes, true)
    ensures ListInstructions(nodes, true) == AllFromTemplate(ElementsOf(nodes))
    decreases |nodes|
  {
    if nodes != [] {
      var init, last := nodes[..|nodes| - 1], nodes[|nodes| - 1];
      var tail := if last.Element? then [last] else [];
      assert ElementsOf(nodes) == ElementsOf(init) + tail;
      AllFieldsSafeSplit(ElementsOf(init), tail);
      SequenceIsElements(init);
      AllFromTemplateAppend(ElementsOf(init), tail);
      if last.Element? {
        assert tail[0] == last;
        AllFromTemplateSingle(last);
      }
    }
  }

  /** One child of the root contributes the instructions of the field elements it stands for. */
  lemma NodeIsFields(node: XmlNode)
    requires AllFieldsSafe(NodeFields(node))
    ensures NodeSafe(node, false)
    ensures NodeInstructions(node, false) == AllFromTemplate(NodeFields(node))
  {
    if node.Element? && node.tag == "sequence" {
      SequenceIsElements(node.children);
    } else if node.Element? && node.tag != "typeRef" {
      assert NodeFields(node)[0] == node;
      AllFromTemplateSingle(node);
    }
  }

  /** The children of the root contribute the instructions of their field elements, in order. */
  lemma {:induction false} ChildrenAreExpanded(nodes: seq<XmlNode>)
    requires AllFieldsSafe(Expanded(nodes))
    ensures ListSafe(nodes, false)
    ensures ListInstructions(nodes, false) == AllFromTemplate(Expanded(nodes))
    decreases |nodes|
  {
    if nodes != [] {
      var init, last := nodes[..|nodes| - 1], nodes[|nodes| - 1];
      assert Expanded(nodes) == Expanded(init) + NodeFields(last);
      AllFieldsSafeSplit(Expanded(init), NodeFields(last));
      ChildrenAreExpanded(init);
      NodeIsFields(last);
      AllFromTemplateAppend(Expanded(init), NodeFields(last));
    }
  }

  /** `Template::from_xml` against the field elements of the template: the id is parsed first, then
      the instructions are those of the field elements in document order, and any failure fails
      the whole template with `S1`. */
  lemma TemplateIsFields(root: XmlNode)
    requires root.Element? && "name" in root.attributes && AllFieldsSafe(Expanded(root.children))
    ensures TemplateSafe(root)
    ensures TemplateFromXml(root) ==
              match TemplateId(root)
              case Failure(e) => Failure(e)
              case Success(id) =>
                match AllFromTemplate(Expanded(root.children))
                case Failure(e) => Failure(e)
                case Success(instructions) => Success(Template(id, root.attributes["name"], instructions))
  {
    ChildrenAreExpanded(root.children);
  }

  /** The field elements fail exactly when one of them has no name or a tag that is not a field
      tag; on success instruction `i` is named after field element `i`. */
  lemma AllFromTemplateFails(fields: seq<XmlNode>)
    requires AllFieldsSafe(fields)
    ensures AllFromTemplate(fields).Failure? <==>
              exists i | 0 <= i < |fields| :: "name" !in fields[i].attributes || fields[i].tag !in FieldTags
    ensures AllFromTemplate(fields).Success? ==>
              forall i | 0 <= i < |fields| :: AllFromTemplate(fields).value[i].name == fields[i].attributes["name"]
  {
    if AllFromTemplate(fields).Failure? {
      var i :| 0 <= i < |fields| && FromTemplate(fields[i]).Failure?;
    }
  }

  /** The field elements of two runs of children, one after the other. */
  lemma {:induction false} ExpandedAppend(a: seq<XmlNode>, b: seq<XmlNode>)
    ensures Expanded(a + b) == Expanded(a) + Expanded(b)
    decreases |b|
  {
    if b == [] {
      assert a + b == a;
    } else {
      var init := b[..|b| - 1];
      assert (a + b)[..|a + b| - 1] == a + init;
      ExpandedAppend(a, init);
    }
  }

  /** One more child of the root adds the field elements it stands for. */
  lemma ExpandedSnoc(a: seq<XmlNode>, x: XmlNode)
    ensures Expanded(a + [x]) == Expanded(a) + NodeFields(x)
  {
    assert (a + [x])[..|a + [x]| - 1] == a;
  }

  /** A `typeRef` or a non-element child of the root adds no field element. */
  lemma SkippedChild(a: seq<XmlNode>, x: XmlNode, b: seq<XmlNode>)
    requires !x.Element? || x.tag == "typeRef"
    ensures Expanded(a + [x] + b) == Expanded(a + b)
  {
    ExpandedAppend(a + [x], b);
    ExpandedAppend(a, b);
    ExpandedSnoc(a, x);
  }

  /** A `sequence` child of the root is replaced, in place, by its element children. */
  lemma SequenceSpliced(a: seq<XmlNode>, attributes: map<string, string>, children: seq<XmlNode>, b: seq<XmlNode>)
    ensures Expanded(a + [Element("sequence", attributes, children)] + b) == Expanded(a) + ElementsOf(children) + Expanded(b)
  {
    var x := Element("sequence", attributes, children);
    ExpandedAppend(a + [x], b);
    ExpandedSnoc(a, x);
  }

  /** An element is among `ElementsOf(nodes)` exactly when it is among `nodes`. */
  lemma {:induction false} ElementsOfMembers(nodes: seq<XmlNode>, x: XmlNode)
    requires x.Element?
    ensures x in ElementsOf(nodes) <==> x in nodes
    decreases |nodes|
  {
    if nodes != [] {
      var init := nodes[..|nodes| - 1];
      assert nodes == init + [nodes[|nodes| - 1]];
      ElementsOfMembers(init, x);
    }
  }

  /** The element children of a top-level `sequence` are field elements of the template. */
  lemma SequenceChildExpanded(cs: seq<XmlNode>, i: nat, inner: XmlNode)
    requires i < |cs| && cs[i].Element? && cs[i].tag == "sequence"
    requires inner in cs[i].children && inner.Element?
    ensures inner in Expanded(cs)
  {
    var outer := cs[i];
    assert cs == cs[..i] + [outer] + cs[i + 1..];
    SequenceSpliced(cs[..i], outer.attributes, outer.children, cs[i + 1..]);
    ElementsOfMembers(outer.children, inner);
  }

  /** A field element whose tag is not a field tag fails the whole run. */
  lemma NonFieldFails(fields: seq<XmlNode>, x: XmlNode)
    requires AllFieldsSafe(fields) && x in fields && x.tag !in FieldTags
    ensures AllFromTemplate(fields).Failure?
  {
    var k :| 0 <= k < |fields| && fields[k] == x;
    AllFromTemplateFails(fields);
  }

  /** Sequences nest one level only: a template whose top-level `sequence` holds another
      `sequence` element fails with `S1`. */
  lemma NestedSequenceFails(root: XmlNode, i: nat, inner: XmlNode)
    requires root.Element? && "name" in root.attributes && AllFieldsSafe(Expanded(root.children))
    requires i < |root.children| && root.children[i].Element? && root.children[i].tag == "sequence"
    requires inner in root.children[i].children && inner.Element? && inner.tag == "sequence"
    ensures TemplateSafe(root) && TemplateFromXml(root) == Failure(S1)
  {
    SequenceChildExpanded(root.children, i, inner);
    NonFieldFails(Expanded(root.children), inner);
    TemplateIsFields(root);
  }
}
