/**
 * The generator's routing state as a value, and the emitters as functions
 * from that state to the state after they have run. `FileWriter` in module
 * FileWriters performs exactly these steps in place.
 */
module Generator {
  import opened Wrappers
  import opened Cursors
  import opened Nodes
  import opened TypeResolver
  import opened Staging
  import opened Templates

  /** One staging buffer per section; every section always has one. */
  datatype Mods = Mods(root: Stage, types: Stage, messages: Stage, portTypes: Stage, bindings: Stage)
  {
    function Get(s: Section): Stage
    {
      match s
      case Root => root
      case Types => types
      case Messages => messages
      case PortTypes => portTypes
      case Bindings => bindings
    }

    /** Replaces the stage of section `s`; `Properties.UpdateGet` shows the other four keep theirs. */
    function Put(s: Section, st: Stage): (r: Mods)
      ensures r.Get(s) == st
    {
      match s
      case Root => this.(root := st)
      case Types => this.(types := st)
      case Messages => this.(messages := st)
      case PortTypes => this.(portTypes := st)
      case Bindings => this.(bindings := st)
    }
  }

  function InitMods(): Mods
  {
    Mods(NewStage(Root), NewStage(Types), NewStage(Messages), NewStage(PortTypes), NewStage(Bindings))
  }

  /** The current section, the shared nesting level, the schema's target namespace and the five buffers. */
  datatype Gen = Gen(current: Section, level: nat, tns: Option<string>, mods: Mods)
  {
    function Cur(): Stage
    {
      mods.Get(current)
    }

    function Update(st: Stage): Gen
    {
      this.(mods := mods.Put(current, st))
    }

    function Write(buf: string): Gen
    {
      Update(Cur().Write(buf, level))
    }

    function DelayedWrite(buf: string): Gen
    {
      Update(Cur().DelayedWrite(buf))
    }

    function FlushDelayedBuffer(): Gen
    {
      Update(Cur().FlushDelayedBuffer())
    }

    function SeenType(t: string): Gen
    {
      Update(Cur().SeenType(t))
    }

    function ResetDefinedTypes(): Gen
    {
      Update(Cur().ResetDefinedTypes())
    }

    predicate HaveSeenType(t: string)
    {
      Cur().HaveSeenType(t)
    }

    /** The shared level changes, and so does the level of the current section only. */
    function SetLevel(l: nat): Gen
    {
      this.(level := l).Update(Cur().SetLevel(l))
    }

    function IncLevel(): Gen
    {
      SetLevel(level + 1)
    }

    /** The level is an unsigned integer: it is never lowered below 0. */
    function DecLevel(): Gen
      requires level > 0
    {
      SetLevel(level - 1)
    }

    function CheckSection(target: Section): Gen
    {
      if current != target then this.(current := target) else this
    }
  }

  /** A new generator: the root section is current, at level 0, with no target namespace. */
  function InitGen(): Gen
  {
    Gen(Root, 0, None, InitMods())
  }

  function PrintHeader(g: Gen): Gen
  {
    g.Write(FileHeader)
  }

  // ----- the schema walker: types section -----

  /**
   * A schema element: a nested complex type becomes a struct; a typed element
   * becomes an alias at level 0 and a field of the enclosing struct otherwise.
   */
  function PrintElement(g: Gen, n: Node, cs: Casing): (r: Gen)
    ensures r.level == g.level && r.current == g.current && r.tns == g.tns
    decreases n, 3, 0
  {
    match GetSomeAttribute(n, "name")
    case None => g
    case Some(name) =>
      var asVec := GetSomeAttribute(n, "maxOccurs").Some?;
      var asOption := GetSomeAttribute(n, "nillable").Some?;
      match FindChild(n, "complexType")
      case Some(complex) => PrintComplexElement(g, complex, name, cs)
      case None =>
        match GetSomeAttribute(n, "type")
        case None => g
        case Some(typeName) =>
          if g.level == 0 then g.Write(AliasLine(name, typeName, cs))
          else g.Write(RenameLine(name, g.tns)).Write(FieldLine(name, typeName, asVec, asOption, cs))
  }

  /** A named complex type: a struct one level deeper, with its sequence and complex-content fields. */
  function PrintComplexElement(g: Gen, n: Node, name: string, cs: Casing): (r: Gen)
    ensures r.level == g.level && r.current == g.current && r.tns == g.tns
    decreases n, 2, 1
  {
    StructBody(g.IncLevel(), n, name, cs).DecLevel()
  }

  /** What a complex type writes once the level has been raised for it, up to its closing brace. */
  function StructBody(g: Gen, n: Node, name: string, cs: Casing): (r: Gen)
    ensures r.level == g.level && r.current == g.current && r.tns == g.tns
    decreases n, 2, 0
  {
    var g2 := g.Write(DeriveLine).Write(StructHeader(name, g.tns, cs));
    var g3 := match FindChild(n, "sequence")
      case Some(s) => PrintSequence(g2, s, cs)
      case None => g2;
    var g4 := match FindChild(n, "complexContent")
      case Some(c) => PrintComplexContent(g3, c, cs)
      case None => g3;
    g4.Write(CloseLine)
  }

  /** Every child of a sequence is printed as an element. */
  function PrintSequence(g: Gen, n: Node, cs: Casing): (r: Gen)
    ensures r.level == g.level && r.current == g.current && r.tns == g.tns
    decreases n, 1, 0
  {
    SequenceChildren(g, n, |n.children|, cs)
  }

  /** The first `k` children of `n` printed as elements, in order. */
  function SequenceChildren(g: Gen, n: Node, k: nat, cs: Casing): (r: Gen)
    requires k <= |n.children|
    ensures r.level == g.level && r.current == g.current && r.tns == g.tns
    decreases n, 0, k
  {
    if k == 0 then g
    else PrintElement(SequenceChildren(g, n, k - 1, cs), n.children[k - 1], cs)
  }

  /** Complex content: the flattened base of an extension and its sequence, then every child as an element. */
  function PrintComplexContent(g: Gen, n: Node, cs: Casing): (r: Gen)
    ensures r.level == g.level && r.current == g.current && r.tns == g.tns
    decreases n, 2, 0
  {
    var g1 := match FindChild(n, "extension")
      case Some(ext) =>
        var h := PrintExtension(g.Write(FlattenLine), ext, cs);
        (match FindChild(ext, "sequence")
         case Some(s) => PrintSequence(h, s, cs)
         case None => h)
      case None => g;
    PrintSequence(g1, n, cs)
  }

  /** The base type of an extension as one field. */
  function PrintExtension(g: Gen, n: Node, cs: Casing): Gen
  {
    match GetSomeAttribute(n, "base")
    case None => g
    case Some(base) => g.Write(ExtensionField(base, cs))
  }

  /** A schema (or the WSDL `types` node): switch to the types section, take its target namespace, print its children. */
  function PrintXsd(g: Gen, n: Node, cs: Casing): Gen
  {
    var g1 := g.CheckSection(Types).(tns := GetSomeAttribute(n, "targetNamespace"));
    XsdChildren(g1, n, |n.children|, cs)
  }

  function XsdChildren(g: Gen, n: Node, k: nat, cs: Casing): Gen
    requires k <= |n.children|
  {
    if k == 0 then g else XsdChild(XsdChildren(g, n, k - 1, cs), n.children[k - 1], cs)
  }

  /** Imports read another file and are not part of this model: they leave the state as it is. */
  function XsdChild(g: Gen, c: Node, cs: Casing): Gen
  {
    if c.tag == "import" then g
    else if c.tag == "element" then PrintElement(g, c, cs)
    else if c.tag == "complexType" then
      match GetSomeAttribute(c, "name")
      case Some(name) => PrintComplexElement(g, c, name, cs)
      case None => g
    else g
  }

  // ----- messages section -----

  /** A message becomes a struct whose one field comes from its first part. */
  function PrintMessage(g: Gen, n: Node, cs: Casing): Gen
  {
    var g1 := g.CheckSection(Messages);
    match GetSomeAttribute(n, "name")
    case None => g1
    case Some(name) =>
      var g2 := g1.Write(DeriveLine).Write(StructHeader(name, None, cs));
      var g3 := match FindChild(n, "part")
        case Some(p) => PrintPart(g2, p, cs)
        case None => g2;
      g3.Write(CloseLine)
  }

  function PrintPart(g: Gen, n: Node, cs: Casing): Gen
  {
    match GetSomeAttribute(n, "name")
    case None => g
    case Some(name) =>
      match GetSomeAttribute(n, "element")
      case None => g
      case Some(element) => g.Write(FlattenLine).Write(PartField(name, element, cs))
  }

  // ----- port types (interfaces) section -----

  /** The text an interface operation derives from its input, output and fault messages. */
  datatype PortTemplates = PortTemplates(inputType: string, input: string, outputType: string,
                                         faultType: Option<string>, output: string)

  /** `map_name_message`: the `name` and `message` attributes of an input, output or fault. */
  function MapNameMessage(c: Option<Node>): Option<(Option<string>, Option<string>)>
  {
    match c
    case None => None
    case Some(n) => Some((GetSomeAttribute(n, "name"), GetSomeAttribute(n, "message")))
  }

  function OperationTemplates(input: Option<(Option<string>, Option<string>)>,
                              output: Option<(Option<string>, Option<string>)>,
                              fault: Option<(Option<string>, Option<string>)>, cs: Casing): PortTemplates
  {
    var (inputType, inputArg) :=
      if input.Some? && input.value.0.Some? && input.value.1.Some? then
        var name := input.value.0.value;
        (MessageAlias(name, input.value.1.value, cs), cs.snake(name) + ": " + cs.pascal(name))
      else ("", "");
    if output.Some? && output.value.0.Some? && output.value.1.Some? then
      var name := output.value.0.value;
      var outputType := MessageAlias(name, output.value.1.value, cs);
      if fault.Some? && fault.value.0.Some? && fault.value.1.Some? then
        var faultName := fault.value.0.value;
        PortTemplates(inputType, inputArg, outputType,
                      Some(MessageAlias(faultName, fault.value.1.value, cs)),
                      "-> Result<" + cs.pascal(name) + ", " + cs.pascal(faultName) + ">")
      else PortTemplates(inputType, inputArg, outputType, None, "-> " + cs.pascal(name))
    else PortTemplates(inputType, inputArg, "", None, "")
  }

  /** The input and output aliases are queued alike. */
  function QueueOnce(g: Gen, t: string): Gen
  {
    if !g.HaveSeenType(t) then g.DelayedWrite(t).SeenType(t) else g
  }

  /** Queues each alias text on the delayed buffer unless it was recorded since the last reset, then records it. */
  function QueuePortTypes(g: Gen, input: string, output: string, fault: Option<string>): Gen
  {
    var g2 := QueueOnce(QueueOnce(g, input), output);
    match fault
    case Some(f) => if !g2.HaveSeenType(f) then g2.SeenType(f).DelayedWrite(f) else g2
    case None => g2
  }

  /** An operation: its message aliases are queued, its method signature written. */
  function PrintOperation(g: Gen, n: Node, cs: Casing): Gen
  {
    match GetSomeAttribute(n, "name")
    case None => g
    case Some(name) =>
      var t := OperationTemplates(MapNameMessage(FindChild(n, "input")), MapNameMessage(FindChild(n, "output")),
                                  MapNameMessage(FindChild(n, "fault")), cs);
      QueuePortTypes(g, t.inputType, t.outputType, t.faultType).Write(FnSignature(cs.snake(name), t.input, t.output))
  }

  function Operations(g: Gen, n: Node, k: nat, cs: Casing): Gen
    requires k <= |n.children|
  {
    if k == 0 then g else PrintOperation(Operations(g, n, k - 1, cs), n.children[k - 1], cs)
  }

  /** An interface: a trait with one method per operation, then the queued aliases, then a reset of the record. */
  function PrintPortType(g: Gen, n: Node, cs: Casing): Gen
  {
    var g1 := g.CheckSection(PortTypes);
    match GetSomeAttribute(n, "name")
    case None => g1
    case Some(name) =>
      var g2 := Operations(g1.Write(TraitOpen(name, cs)), n, |n.children|, cs);
      g2.Write(CloseLine).FlushDelayedBuffer().ResetDefinedTypes()
  }

  // ----- bindings section -----

  /** The text a binding operation derives from the names of its input, output and fault. */
  datatype BindingTemplates = BindingTemplates(input: string, wrapperIn: string, output: string, wrapperOut: string)

  function NameOf(c: Option<Node>): Option<Option<string>>
  {
    match c
    case None => None
    case Some(n) => Some(GetSomeAttribute(n, "name"))
  }

  /** An input, output or fault that is present and has a name. */
  predicate Named(c: Option<Option<string>>)
  {
    c.Some? && c.value.Some?
  }

  /** The method argument: the input's interface type, when the input is named. */
  function BindingArgument(input: Option<Option<string>>, cs: Casing): string
  {
    if Named(input) then cs.snake(input.value.value) + ": " + PortsMod + "::" + cs.pascal(input.value.value)
    else ""
  }

  /** The return clause: `Result` over output and fault when both are named, the output alone when only it is. */
  function BindingReturn(output: Option<Option<string>>, fault: Option<Option<string>>, cs: Casing): string
  {
    if Named(output) then
      var pascalName := cs.pascal(output.value.value);
      if Named(fault) then "-> Result<" + PortsMod + "::" + pascalName + ", " + PortsMod + "::" + cs.pascal(fault.value.value) + ">"
      else "-> " + PortsMod + "::" + pascalName
    else ""
  }

  /** The envelope wrapper of a named input or output; nothing when it is not named. */
  function BindingWrapper(c: Option<Option<string>>, operationName: string, cs: Casing): string
  {
    if Named(c) then SoapWrapper(cs.pascal(c.value.value), operationName) else ""
  }

  function BindingOperationTemplates(operationName: string, input: Option<Option<string>>,
                                     output: Option<Option<string>>, fault: Option<Option<string>>,
                                     cs: Casing): BindingTemplates
  {
    BindingTemplates(BindingArgument(input, cs), BindingWrapper(input, operationName, cs),
                     BindingReturn(output, fault, cs), BindingWrapper(output, operationName, cs))
  }

  /** A binding operation: a stub method, and its envelope wrappers queued on the delayed buffer. */
  function PrintBindingOperation(g: Gen, n: Node, cs: Casing): Gen
  {
    match GetSomeAttribute(n, "name")
    case None => g
    case Some(name) =>
      var t := BindingOperationTemplates(name, NameOf(FindChild(n, "input")), NameOf(FindChild(n, "output")),
                                         NameOf(FindChild(n, "fault")), cs);
      g.Write(FnOpen(cs.snake(name), t.input, t.output)).Write(Unimplemented).Write(CloseFn)
       .DelayedWrite(t.wrapperIn).DelayedWrite(t.wrapperOut)
  }

  function BindingOperations(g: Gen, n: Node, k: nat, cs: Casing): Gen
    requires k <= |n.children|
  {
    if k == 0 then g else PrintBindingOperation(BindingOperations(g, n, k - 1, cs), n.children[k - 1], cs)
  }

  /** A binding: an implementation of the interface, a default constructor, then the queued wrappers. */
  function PrintBinding(g: Gen, n: Node, cs: Casing): Gen
  {
    var g1 := g.CheckSection(Bindings);
    match GetSomeAttribute(n, "name")
    case None => g1
    case Some(name) =>
      match GetSomeAttribute(n, "type")
      case None => g1
      case Some(typeName) =>
        var structName := cs.pascal(name);
        var g2 := BindingOperations(g1.Write(ImplOpen(structName, FetchType(typeName, cs))), n, |n.children|, cs);
        g2.Write(CloseLine).Write(DefaultConstructor(structName)).FlushDelayedBuffer()
  }

  // ----- dispatch -----

  function DefinitionChild(g: Gen, c: Node, cs: Casing): Gen
  {
    if c.tag == "types" then PrintXsd(g, c, cs)
    else if c.tag == "message" then PrintMessage(g, c, cs)
    else if c.tag == "portType" then PrintPortType(g, c, cs)
    else if c.tag == "binding" then PrintBinding(g, c, cs)
    else g
  }

  function DefinitionChildren(g: Gen, n: Node, k: nat, cs: Casing): Gen
    requires k <= |n.children|
  {
    if k == 0 then g else DefinitionChild(DefinitionChildren(g, n, k - 1, cs), n.children[k - 1], cs)
  }

  /** A WSDL document's definitions: types, messages, port types and bindings, in document order. */
  function PrintDefinitions(g: Gen, n: Node, cs: Casing): Gen
  {
    DefinitionChildren(g, n, |n.children|, cs)
  }

  /** Dispatch by tag name; every other tag is ignored. */
  function Print(g: Gen, n: Node, cs: Casing): Gen
  {
    if n.tag == "definitions" then PrintDefinitions(g, n, cs)
    else if n.tag == "schema" then PrintXsd(g, n, cs)
    else g
  }

  /** A node and all nodes below it, in document order. */
  function Descendants(n: Node): seq<Node>
    decreases n, 1
  {
    [n] + DescendantsOf(n, |n.children|)
  }

  function DescendantsOf(n: Node, k: nat): seq<Node>
    requires k <= |n.children|
    decreases n, 0, k
  {
    if k == 0 then [] else DescendantsOf(n, k - 1) + Descendants(n.children[k - 1])
  }

  function PrintNodes(g: Gen, ns: seq<Node>, cs: Casing): Gen
  {
    if ns == [] then g else Print(PrintNodes(g, ns[..|ns| - 1], cs), ns[|ns| - 1], cs)
  }

  /** A parsed document: the file preamble, then every node of the document in order. */
  function ProcessDocument(g: Gen, doc: Node, cs: Casing): Gen
  {
    PrintNodes(PrintHeader(g), Descendants(doc), cs)
  }
}
