/** FAST templates: the element tree of a template definition becomes a template id, a name and the
    list of field instructions, one per field element, in document order. */
module FastTemplate {
  import opened Wrappers

  newtype u32 = x: int | 0 <= x < 0x1_0000_0000

  /** A node of the XML document: an element with its local tag name, attributes and children, or
      any other node (text, comment, processing instruction), which carries no instruction. */
  datatype XmlNode =
    | Element(tag: string, attributes: map<string, string>, children: seq<XmlNode>)
    | Text(content: string)

  /** The primitive types a field instruction can have. */
  datatype PrimitiveType = SInt32 | UInt32 | SInt64 | UInt64 | Decimal | Ascii | Utf8 | Bytes

  /** `FieldType`: a primitive field, or a group with its id. */
  datatype FieldType = Primitive(primitive: PrimitiveType) | Group(groupId: u32)

  /** The field operator of an instruction; the template builder only ever uses `Constant`. */
  datatype FieldOperator = Constant

  /** The template errors; the builder only ever reports `S1`. */
  datatype StaticError = S1

  /** `FieldInstruction`; `kind()` and `is_mandatory()` read `fieldType` and `mandatory`. */
  datatype FieldInstruction = FieldInstruction(
    fieldType: FieldType,
    name: string,
    id: u32,
    mandatory: bool,
    operator: FieldOperator)

  /** `Template`; `id()`, `name()` and `iter_items()` read its three fields. */
  datatype Template = Template(id: Option<u32>, name: string, instructions: seq<FieldInstruction>)

  // ---------------------------------------------------------------------------------------------
  // Parsing a `u32` attribute

  predicate IsDigit(c: char)
  {
    '0' <= c <= '9'
  }

  /** The number a non-empty run of decimal digits denotes. */
  function DigitsValue(s: string): nat
    requires AllDigits(s)
    decreases |s|
  {
    if s == [] then 0
    else
      assert IsDigit(s[|s| - 1]);
      DigitsValue(s[..|s| - 1]) * 10 + (s[|s| - 1] as int - '0' as int)
  }

  /** What follows the one optional leading `+`. */
  function Unsigned(s: string): string
  {
    if |s| > 0 && s[0] == '+' then s[1..] else s
  }

  predicate AllDigits(s: string)
  {
    forall i | 0 <= i < |s| :: IsDigit(s[i])
  }

  /** `str::parse::<u32>`: at most one leading `+`, then at least one decimal digit, denoting a
      number below 2^32. */
  function ParseU32(s: string): (r: Option<u32>)
    ensures r.Some? <==> |Unsigned(s)| > 0 && AllDigits(Unsigned(s)) && DigitsValue(Unsigned(s)) < 0x1_0000_0000
    ensures r.Some? ==> r.value as int == DigitsValue(Unsigned(s))
  {
    var digits := Unsigned(s);
    if |digits| == 0 || !AllDigits(digits) then None
    else if DigitsValue(digits) < 0x1_0000_0000 then Some(DigitsValue(digits) as u32)
    else None
  }

  /** The decimal digits of a number, most significant first, without leading zeros. */
  function DecimalDigits(n: nat): (s: string)
    ensures |s| > 0
    ensures AllDigits(s)
    ensures s[0] == '0' ==> n == 0
    ensures DigitsValue(s) == n
  {
    var last := ['0' + (n % 10) as char];
    if n < 10 then last
    else
      var init := DecimalDigits(n / 10);
      var s := init + last;
      assert s[..|s| - 1] == init;
      s
  }

  /** Every `u32` written out in decimal, with or without a `+`, parses back to itself. */
  lemma ParseU32OfDecimal(n: u32)
    ensures ParseU32(DecimalDigits(n as nat)) == Some(n)
    ensures ParseU32("+" + DecimalDigits(n as nat)) == Some(n)
  {
    var s := DecimalDigits(n as nat);
    assert Unsigned(s) == s;
    assert Unsigned("+" + s) == s;
  }

  /** The strings without a digit after the optional `+` are rejected: the empty string, a lone
      `+`, and anything starting with `-`. */
  lemma ParseU32Rejects(s: string)
    ensures ParseU32("") == None && ParseU32("+") == None
    ensures |s| > 0 && s[0] == '-' ==> ParseU32(s) == None
  {
    if |s| > 0 && s[0] == '-' {
      assert Unsigned(s) == s && !IsDigit(s[0]);
    }
  }

  // ---------------------------------------------------------------------------------------------
  // Field instructions

  /** The tags `xml_tag_to_instruction` recognises. */
  const FieldTags: set<string> := {"string", "uInt32", "int32", "uInt64", "int64", "decimal", "byteVector", "length"}

  /** `xml_tag_to_instruction`: the primitive type of a field element's tag, `S1` for any other tag. */
  function XmlTagToInstruction(tag: string): (r: Result<FieldType, StaticError>)
    ensures r.Success? <==> tag in FieldTags
    ensures r.Failure? ==> r.error == S1
    ensures r.Success? ==> r.value.Primitive? && r.value.primitive !in {Utf8, Bytes}
  {
    match tag
    case "string" => Success(Primitive(Ascii))
    case "uInt32" => Success(Primitive(UInt32))
    case "int32" => Success(Primitive(SInt32))
    case "uInt64" => Success(Primitive(UInt64))
    case "int64" => Success(Primitive(SInt64))
    case "decimal" => Success(Primitive(Decimal))
    case "byteVector" => Success(Primitive(Decimal))
    case "length" => Success(Primitive(UInt32))
    case _ => Failure(S1)
  }

  /** The type of each accepted tag: unsigned for the unsigned and length tags, signed for the
      signed ones, `Ascii` for strings and `Decimal` for decimals and byte vectors. */
  lemma XmlTagToInstructionTable(tag: string)
    ensures tag == "string" ==> XmlTagToInstruction(tag) == Success(Primitive(Ascii))
    ensures tag == "int32" ==> XmlTagToInstruction(tag) == Success(Primitive(SInt32))
    ensures tag == "uInt64" ==> XmlTagToInstruction(tag) == Success(Primitive(UInt64))
    ensures tag == "int64" ==> XmlTagToInstruction(tag) == Success(Primitive(SInt64))
    ensures tag in {"uInt32", "length"} ==> XmlTagToInstruction(tag) == Success(Primitive(UInt32))
    ensures tag in {"decimal", "byteVector"} ==> XmlTagToInstruction(tag) == Success(Primitive(Decimal))
  {
  }

  /** `_xml_presence_attribute_to_bool`: `"true"` and `"false"`, the only values it accepts. */
  function PresenceToBool(attribute: string): (b: bool)
    requires attribute == "true" || attribute == "false"
    ensures b <==> attribute == "true"
    ensures !b <==> attribute == "false"
  {
    match attribute
    case "true" => true
    case "false" => false
  }

  /** Building the instruction for this element does not reach the `unwrap` of its id: an element
      with a name has an id attribute that parses as a `u32`. */
  predicate FieldSafe(node: XmlNode)
    requires node.Element?
  {
    "name" in node.attributes ==> "id" in node.attributes && ParseU32(node.attributes["id"]).Some?
  }

  /** `FieldInstruction::from_template`: a named element with a field tag becomes the instruction
      with its name, id, type and presence; a missing name or another tag is `S1`. */
  function FromTemplate(node: XmlNode): (r: Result<FieldInstruction, StaticError>)
    requires node.Element? && FieldSafe(node)
    ensures r.Failure? <==> "name" !in node.attributes || node.tag !in FieldTags
    ensures r.Failure? ==> r.error == S1
    ensures r.Success? ==>
              && r.value.name == node.attributes["name"]
              && Some(r.value.id) == ParseU32(node.attributes["id"])
              && Success(r.value.fieldType) == XmlTagToInstruction(node.tag)
              && (r.value.mandatory <==> "presence" !in node.attributes || node.attributes["presence"] == "true")
              && r.value.operator == Constant
  {
    if "name" !in node.attributes then Failure(S1)
    else
      var name := node.attributes["name"];
      var id := ParseU32(node.attributes["id"]).value;
      var mandatory := (if "presence" in node.attributes then node.attributes["presence"] else "true") == "true";
      match XmlTagToInstruction(node.tag)
      case Failure(e) => Failure(e)
      case Success(fieldType) => Success(FieldInstruction(fieldType, name, id, mandatory, Constant))
  }

  // ---------------------------------------------------------------------------------------------
  // The children of a template

  /** Building the instructions of this node (a child of the template when `!inSequence`, of a
      `sequence` otherwise) reaches no panic. */
  predicate NodeSafe(node: XmlNode, inSequence: bool)
    decreases node, 0
  {
    node.Element? ==>
      if !inSequence && node.tag == "sequence" then ListSafe(node.children, true)
      else if !inSequence && node.tag == "typeRef" then true
      else FieldSafe(node)
  }

  /** Building the instructions of these nodes reaches no panic: each node is safe once all before
      it have succeeded (the first failure returns before later nodes are visited). */
  predicate ListSafe(nodes: seq<XmlNode>, inSequence: bool)
    decreases nodes, 0
  {
    nodes == [] ||
      (&& ListSafe(nodes[..|nodes| - 1], inSequence)
       && (ListInstructions(nodes[..|nodes| - 1], inSequence).Success? ==> NodeSafe(nodes[|nodes| - 1], inSequence)))
  }

  /** The instructions one node contributes: none for a non-element or a template-level `typeRef`,
      those of its element children for a template-level `sequence`, and its own instruction for
      any other element (including a `sequence` inside a `sequence`). */
  function NodeInstructions(node: XmlNode, inSequence: bool): (r: Result<seq<FieldInstruction>, StaticError>)
    requires NodeSafe(node, inSequence)
    ensures r.Failure? ==> r.error == S1
    ensures !node.Element? ==> r == Success([])
    ensures inSequence && node.Element? ==> (r.Success? <==> "name" in node.attributes && node.tag in FieldTags)
    ensures inSequence && r.Success? ==> |r.value| <= 1
    decreases node, 1
  {
    if !node.Element? then Success([])
    else if !inSequence && node.tag == "sequence" then ListInstructions(node.children, true)
    else if !inSequence && node.tag == "typeRef" then Success([])
    else match FromTemplate(node)
      case Failure(e) => Failure(e)
      case Success(instruction) => Success([instruction])
  }

  /** The instructions of several nodes in turn, concatenated; the first failure fails them all. */
  function ListInstructions(nodes: seq<XmlNode>, inSequence: bool): (r: Result<seq<FieldInstruction>, StaticError>)
    requires ListSafe(nodes, inSequence)
    ensures r.Failure? ==> r.error == S1
    ensures inSequence && r.Success? ==> |r.value| <= |nodes|
    decreases nodes, 1
  {
    if nodes == [] then Success([])
    else match ListInstructions(nodes[..|nodes| - 1], inSequence)
      case Failure(e) => Failure(e)
      case Success(init) =>
        match NodeInstructions(nodes[|nodes| - 1], inSequence)
        case Failure(e) => Failure(e)
        case Success(more) => Success(init + more)
  }

  /** The template id: none without an `id` attribute, `S1` when it is not a `u32`. */
  function TemplateId(root: XmlNode): (r: Result<Option<u32>, StaticError>)
    requires root.Element?
    ensures r == Success(None) <==> "id" !in root.attributes
    ensures r.Failure? <==> "id" in root.attributes && ParseU32(root.attributes["id"]).None?
    ensures r.Success? && r.value.Some? ==> Some(r.value.value) == ParseU32(root.attributes["id"])
  {
    if "id" !in root.attributes then Success(None)
    else match ParseU32(root.attributes["id"])
      case None => Failure(S1)
      case Some(n) => Success(Some(n))
  }

  /** `from_xml` reaches none of its panics: the root is a named element and, when its id parses,
      building its children's instructions panics nowhere. */
  predicate TemplateSafe(root: XmlNode)
  {
    && root.Element? && "name" in root.attributes
    && (TemplateId(root).Success? ==> ListSafe(root.children, false))
  }

  /** What `Template::from_xml` computes: the template's id, name and instructions, or `S1` if the
      id or any instruction fails. */
  function TemplateFromXml(root: XmlNode): (r: Result<Template, StaticError>)
    requires TemplateSafe(root)
    ensures r.Failure? ==> r.error == S1
    ensures r.Failure? <==> TemplateId(root).Failure? || ListInstructions(root.children, false).Failure?
    ensures r.Success? ==>
              && r.value.name == root.attributes["name"]
              && Success(r.value.id) == TemplateId(root)
              && Success(r.value.instructions) == ListInstructions(root.children, false)
  {
    match TemplateId(root)
    case Failure(e) => Failure(e)
    case Success(id) =>
      match ListInstructions(root.children, false)
      case Failure(e) => Failure(e)
      case Success(instructions) => Success(Template(id, root.attributes["name"], instructions))
  }

  // ---------------------------------------------------------------------------------------------
  // Lemmas the builder loop needs

  /** Every prefix of a safe list is safe. */
  lemma {:induction false} ListSafePrefix(nodes: seq<XmlNode>, inSequence: bool, i: nat)
    requires ListSafe(nodes, inSequence) && i <= |nodes|
    ensures ListSafe(nodes[..i], inSequence)
    decreases |nodes|
  {
    if i < |nodes| {
      var init := nodes[..|nodes| - 1];
      assert init[..i] == nodes[..i];
      ListSafePrefix(init, inSequence, i);
    } else {
      assert nodes[..i] == nodes;
    }
  }

  /** One more node: the instructions of a prefix extended by the next node's. */
  lemma ListInstructionsStep(nodes: seq<XmlNode>, inSequence: bool, i: nat)
    requires ListSafe(nodes, inSequence) && i < |nodes|
    ensures ListSafe(nodes[..i], inSequence) && ListSafe(nodes[..i + 1], inSequence)
    ensures ListInstructions(nodes[..i], inSequence).Success? ==> NodeSafe(nodes[i], inSequence)
    ensures ListInstructions(nodes[..i + 1], inSequence) ==
              match ListInstructions(nodes[..i], inSequence)
              case Failure(e) => Failure(e)
              case Success(init) =>
                match NodeInstructions(nodes[i], inSequence)
                case Failure(e) => Failure(e)
                case Success(more) => Success(init + more)
  {
    ListSafePrefix(nodes, inSequence, i + 1);
    ListSafePrefix(nodes, inSequence, i);
    assert nodes[..i + 1][..i] == nodes[..i];
  }

  /** A failing prefix fails the whole list, with the prefix's own error. */
  lemma {:induction false} ListFailurePropagates(nodes: seq<XmlNode>, inSequence: bool, i: nat)
    requires ListSafe(nodes, inSequence) && i <= |nodes|
    requires ListSafe(nodes[..i], inSequence) && ListInstructions(nodes[..i], inSequence).Failure?
    ensures ListInstructions(nodes, inSequence) == ListInstructions(nodes[..i], inSequence)
    decreases |nodes|
  {
    if i < |nodes| {
      var init := nodes[..|nodes| - 1];
      assert init[..i] == nodes[..i];
      ListFailurePropagates(init, inSequence, i);
    } else {
      assert nodes[..i] == nodes;
    }
  }

  /** The state of the inner loop after the first `j` children of the `sequence`: they all
      succeeded, and their instructions follow `base` in `pushed`. */
  ghost predicate SequencePushed(node: XmlNode, base: seq<FieldInstruction>, j: nat, pushed: seq<FieldInstruction>)
    requires node.Element?
  {
    && j <= |node.children|
    && ListSafe(node.children[..j], true)
    && ListInstructions(node.children[..j], true).Success?
    && pushed == base + ListInstructions(node.children[..j], true).value
  }

  /** One turn of the inner loop: child `j` is safe to build if it is an element; a failure fails
      the whole `sequence`, a success or a non-element keeps the loop state. */
  lemma SequencePushStep(node: XmlNode, base: seq<FieldInstruction>, j: nat, pushed: seq<FieldInstruction>)
    requires node.Element? && ListSafe(node.children, true)
    requires SequencePushed(node, base, j, pushed) && j < |node.children|
    ensures node.children[j].Element? ==> FieldSafe(node.children[j])
    ensures !node.children[j].Element? ==> SequencePushed(node, base, j + 1, pushed)
    ensures node.children[j].Element? && FromTemplate(node.children[j]).Failure? ==>
              ListInstructions(node.children, true) == Failure(FromTemplate(node.children[j]).error)
    ensures node.children[j].Element? && FromTemplate(node.children[j]).Success? ==>
              SequencePushed(node, base, j + 1, pushed + [FromTemplate(node.children[j]).value])
  {
    var child := node.children[j];
    ListInstructionsStep(node.children, true, j);
    if !child.Element? {
      assert pushed + [] == pushed;
    } else if FromTemplate(child).Failure? {
      ListFailurePropagates(node.children, true, j + 1);
    }
  }

  /** The inner loop of `Template::from_xml`: pushes one instruction per element child of a
      `sequence` onto `instructions`, returning the first failure. */
  method PushSequence(node: XmlNode, instructions: seq<FieldInstruction>) returns (r: Result<seq<FieldInstruction>, StaticError>)
    requires node.Element? && ListSafe(node.children, true)
    ensures r == match ListInstructions(node.children, true)
                 case Failure(e) => Failure(e)
                 case Success(more) => Success(instructions + more)
  {
    var pushed := instructions;
    var j := 0;
    assert instructions + [] == instructions;
    while j < |node.children|
      invariant SequencePushed(node, instructions, j, pushed)
    {
      var child := node.children[j];
      SequencePushStep(node, instructions, j, pushed);
      if child.Element? {
        var instruction := FromTemplate(child);
        if instruction.Failure? {
          return Failure(instruction.error);
        }
        pushed := pushed + [instruction.value];
      }
      j := j + 1;
    }
    assert node.children[..j] == node.children;
    return Success(pushed);
  }

  /** `Template::from_xml`: parses the id, then walks the root's children, splicing in the element
      children of each `sequence`, skipping `typeRef` and non-elements, and pushing one instruction
      per other element; the first failure is returned. */
  method FromXml(root: XmlNode) returns (r: Result<Template, StaticError>)
    requires TemplateSafe(root)
    ensures r == TemplateFromXml(root)
  {
    var name := root.attributes["name"];
    var id: Option<u32> := None;
    if "id" in root.attributes {
      var parsed := ParseU32(root.attributes["id"]);
      if parsed.None? {
        return Failure(S1);
      }
      id := Some(parsed.value);
    }
    var children := root.children;
    var instructions: seq<FieldInstruction> := [];
    var i := 0;
    while i < |children|
      invariant 0 <= i <= |children|
      invariant ListSafe(children[..i], false)
      invariant ListInstructions(children[..i], false) == Success(instructions)
    {
      var node := children[i];
      ListInstructionsStep(children, false, i);
      if node.Element? {
        if node.tag == "sequence" {
          var pushed := PushSequence(node, instructions);
          if pushed.Failure? {
            ListFailurePropagates(children, false, i + 1);
            return Failure(pushed.error);
          }
          instructions := pushed.value;
        } else if node.tag != "typeRef" {
          var instruction := FromTemplate(node);
          if instruction.Failure? {
            ListFailurePropagates(children, false, i + 1);
            return Failure(instruction.error);
          }
          instructions := instructions + [instruction.value];
        } else {
          assert instructions + [] == instructions;
        }
      } else {
        assert instructions + [] == instructions;
      }
      i := i + 1;
    }
    assert children[..i] == children;
    return Success(Template(id, name, instructions));
  }
}
