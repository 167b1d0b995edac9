/**
 * The generator object: it routes every write to the staging buffer of the
 * current section at the shared nesting level, and walks the document
 * emitting text. Each method leaves the state the matching function of
 * module Generator computes from the state before it.
 */
module FileWriters {
  import opened Wrappers
  import opened Nodes
  import opened TypeResolver
  import opened Staging
  import opened Templates
  import opened ModWriters
  import Generator

  class FileWriter {
    var currentSection: Section
    var level: nat
    var targetNameSpace: Option<string>
    const root: ModWriter
    const types: ModWriter
    const messages: ModWriter
    const portTypes: ModWriter
    const bindings: ModWriter
    /** The identifier casing conventions of the inflector library. */
    const cs: Casing

    /** Five distinct writers, each for its own section. */
    predicate Valid()
    {
      root.section == Root && types.section == Types && messages.section == Messages &&
      portTypes.section == PortTypes && bindings.section == Bindings
    }

    function Writers(): set<object>
    {
      {root, types, messages, portTypes, bindings}
    }

    function Writer(s: Section): (mw: ModWriter)
      ensures mw in Writers()
    {
      match s
      case Root => root
      case Types => types
      case Messages => messages
      case PortTypes => portTypes
      case Bindings => bindings
    }

    /** The value of the whole generator state. */
    function Model(): Generator.Gen
      reads this, Writers()
    {
      Generator.Gen(currentSection, level, targetNameSpace,
                    Generator.Mods(root.Model(), types.Model(), messages.Model(), portTypes.Model(), bindings.Model()))
    }

    /** A generator with one fresh staging buffer per section, the root section current, at level 0. */
    constructor (cs: Casing)
      ensures Valid() && fresh(Writers())
      ensures Model() == Generator.InitGen()
    {
      currentSection, level, targetNameSpace := Root, 0, None;
      root := new ModWriter(Root);
      messages := new ModWriter(Messages);
      types := new ModWriter(Types);
      portTypes := new ModWriter(PortTypes);
      bindings := new ModWriter(Bindings);
      this.cs := cs;
    }

    // ----- routing to the current section -----

    method Write(buf: string)
      requires Valid()
      modifies Writer(currentSection)
      ensures Model() == old(Model()).Write(buf)
    {
      Writer(currentSection).Write(buf, level);
    }

    method DelayedWrite(buf: string)
      requires Valid()
      modifies Writer(currentSection)
      ensures Model() == old(Model()).DelayedWrite(buf)
    {
      Writer(currentSection).DelayedWrite(buf);
    }

    method FlushDelayedBuffer()
      requires Valid()
      modifies Writer(currentSection)
      ensures Model() == old(Model()).FlushDelayedBuffer()
    {
      Writer(currentSection).FlushDelayedBuffer();
    }

    method SeenType(typeDef: string)
      requires Valid()
      modifies Writer(currentSection)
      ensures Model() == old(Model()).SeenType(typeDef)
    {
      Writer(currentSection).SeenType(typeDef);
    }

    method ResetDefinedTypes()
      requires Valid()
      modifies Writer(currentSection)
      ensures Model() == old(Model()).ResetDefinedTypes()
    {
      Writer(currentSection).ResetDefinedTypes();
    }

    method HaveSeenType(typeDef: string) returns (seen: bool)
      requires Valid()
      ensures seen == Model().HaveSeenType(typeDef)
    {
      seen := Writer(currentSection).HaveSeenType(typeDef);
    }

    method SetLevel(l: nat)
      requires Valid()
      modifies this, Writer(currentSection)
      ensures Model() == old(Model()).SetLevel(l)
    {
      level := l;
      Writer(currentSection).SetLevel(l);
    }

    method IncLevel()
      requires Valid()
      modifies this, Writer(currentSection)
      ensures Model() == old(Model()).IncLevel()
    {
      SetLevel(level + 1);
    }

    method DecLevel()
      requires Valid() && level > 0
      modifies this, Writer(currentSection)
      ensures Model() == old(Model()).DecLevel()
    {
      SetLevel(level - 1);
    }

    method CheckSection(target: Section)
      modifies this
      ensures Model() == old(Model()).CheckSection(target)
    {
      if currentSection != target {
        currentSection := target;
      }
    }

    method PrintHeader()
      requires Valid()
      modifies Writer(currentSection)
      ensures Model() == Generator.PrintHeader(old(Model()))
    {
      Write(FileHeader);
    }

    // ----- the schema walker: types section -----

    method PrintElement(n: Node)
      requires Valid()
      modifies this, Writers()
      ensures Model() == Generator.PrintElement(old(Model()), n, cs)
      decreases n, 3, 0
    {
      var name := GetSomeAttribute(n, "name");
      if name.None? {
        return;
      }
      var asVec := GetSomeAttribute(n, "maxOccurs").Some?;
      var asOption := GetSomeAttribute(n, "nillable").Some?;
      var maybeComplex := FindChild(n, "complexType");
      if maybeComplex.Some? {
        PrintComplexElement(maybeComplex.value, name.value);
      } else {
        var typeName := GetSomeAttribute(n, "type");
        if typeName.Some? {
          if level == 0 {
            Write(AliasLine(name.value, typeName.value, cs));
            return;
          }
          Write(RenameLine(name.value, targetNameSpace));
          Write(FieldLine(name.value, typeName.value, asVec, asOption, cs));
        }
      }
    }

    method PrintComplexElement(n: Node, name: string)
      requires Valid()
      modifies this, Writers()
      ensures Model() == Generator.PrintComplexElement(old(Model()), n, name, cs)
      decreases n, 2, 1
    {
      IncLevel();
      PrintStructBody(n, name);
      DecLevel();
    }

    /** The struct of a complex type, written one level deeper than its element. */
    method PrintStructBody(n: Node, name: string)
      requires Valid()
      modifies this, Writers()
      ensures Model() == Generator.StructBody(old(Model()), n, name, cs)
      decreases n, 2, 0
    {
      Write(DeriveLine);
      Write(StructHeader(name, targetNameSpace, cs));
      var maybeSequence := FindChild(n, "sequence");
      var maybeComplex := FindChild(n, "complexContent");
      if maybeSequence.Some? {
        PrintSequence(maybeSequence.value);
      }
      if maybeComplex.Some? {
        PrintComplexContent(maybeComplex.value);
      }
      Write(CloseLine);
    }

    method PrintSequence(n: Node)
      requires Valid()
      modifies this, Writers()
      ensures Model() == Generator.PrintSequence(old(Model()), n, cs)
      decreases n, 1, 0
    {
      var i := 0;
      while i < |n.children|
        invariant i <= |n.children|
        invariant Model() == Generator.SequenceChildren(old(Model()), n, i, cs)
      {
        PrintElement(n.children[i]);
        i := i + 1;
      }
    }

    method PrintComplexContent(n: Node)
      requires Valid()
      modifies this, Writers()
      ensures Model() == Generator.PrintComplexContent(old(Model()), n, cs)
      decreases n, 2, 0
    {
      var maybeExtension := FindChild(n, "extension");
      if maybeExtension.Some? {
        var extension := maybeExtension.value;
        Write(FlattenLine);
        PrintExtension(extension);
        var maybeSequence := FindChild(extension, "sequence");
        if maybeSequence.Some? {
          PrintSequence(maybeSequence.value);
        }
      }
      PrintSequence(n);
    }

    method PrintExtension(n: Node)
      requires Valid()
      modifies Writer(currentSection)
      ensures Model() == Generator.PrintExtension(old(Model()), n, cs)
    {
      var base := GetSomeAttribute(n, "base");
      if base.Some? {
        Write(ExtensionField(base.value, cs));
      }
    }

    method PrintXsd(n: Node)
      requires Valid()
      modifies this, Writers()
      ensures Model() == Generator.PrintXsd(old(Model()), n, cs)
    {
      CheckSection(Types);
      targetNameSpace := GetSomeAttribute(n, "targetNamespace");
      ghost var start := Model();
      var i := 0;
      while i < |n.children|
        invariant i <= |n.children|
        invariant Model() == Generator.XsdChildren(start, n, i, cs)
      {
        PrintXsdChild(n.children[i]);
        i := i + 1;
      }
    }

    method PrintXsdChild(child: Node)
      requires Valid()
      modifies this, Writers()
      ensures Model() == Generator.XsdChild(old(Model()), child, cs)
    {
      if child.tag == "import" {
        // import_file reads and walks another file: not part of this model
      } else if child.tag == "element" {
        PrintElement(child);
      } else if child.tag == "complexType" {
        var name := GetSomeAttribute(child, "name");
        if name.Some? {
          PrintComplexElement(child, name.value);
        }
      }
    }

    // ----- messages section -----

    method PrintMessage(n: Node)
      requires Valid()
      modifies this, Writers()
      ensures Model() == Generator.PrintMessage(old(Model()), n, cs)
    {
      CheckSection(Messages);
      var name := GetSomeAttribute(n, "name");
      if name.Some? {
        Write(DeriveLine);
        Write(StructHeader(name.value, None, cs));
        var maybePart := FindChild(n, "part");
        if maybePart.Some? {
          PrintPart(maybePart.value);
        }
        Write(CloseLine);
      }
    }

    method PrintPart(n: Node)
      requires Valid()
      modifies Writer(currentSection)
      ensures Model() == Generator.PrintPart(old(Model()), n, cs)
    {
      var name := GetSomeAttribute(n, "name");
      if name.None? {
        return;
      }
      var element := GetSomeAttribute(n, "element");
      if element.Some? {
        Write(FlattenLine);
        Write(PartField(name.value, element.value, cs));
      }
    }

    // ----- port types section -----

    method PrintPortType(n: Node)
      requires Valid()
      modifies this, Writers()
      ensures Model() == Generator.PrintPortType(old(Model()), n, cs)
    {
      CheckSection(PortTypes);
      var name := GetSomeAttribute(n, "name");
      if name.None? {
        return;
      }
      Write(TraitOpen(name.value, cs));
      PrintOperations(n);
      Write(CloseLine);
      FlushDelayedBuffer();
      ResetDefinedTypes();
    }

    /** Every operation of an interface, in order. */
    method PrintOperations(n: Node)
      requires Valid()
      modifies Writer(currentSection)
      ensures Model() == Generator.Operations(old(Model()), n, |n.children|, cs)
    {
      var i := 0;
      while i < |n.children|
        invariant i <= |n.children|
        invariant Model() == Generator.Operations(old(Model()), n, i, cs)
      {
        PrintOperation(n.children[i]);
        i := i + 1;
      }
    }

    method PrintOperation(n: Node)
      requires Valid()
      modifies Writer(currentSection)
      ensures Model() == Generator.PrintOperation(old(Model()), n, cs)
    {
      var name := GetSomeAttribute(n, "name");
      if name.None? {
        return;
      }
      var funcName := cs.snake(name.value);
      var someInput := Generator.MapNameMessage(FindChild(n, "input"));
      var someOutput := Generator.MapNameMessage(FindChild(n, "output"));
      var someFault := Generator.MapNameMessage(FindChild(n, "fault"));
      var t := Generator.OperationTemplates(someInput, someOutput, someFault, cs);
      QueuePortTypes(t.inputType, t.outputType, t.faultType);
      Write(FnSignature(funcName, t.input, t.output));
    }

    method QueuePortTypes(input: string, output: string, fault: Option<string>)
      requires Valid()
      modifies Writer(currentSection)
      ensures Model() == Generator.QueuePortTypes(old(Model()), input, output, fault)
    {
      QueueOnce(input);
      QueueOnce(output);
      if fault.Some? {
        var seen := HaveSeenType(fault.value);
        if !seen {
          SeenType(fault.value);
          DelayedWrite(fault.value);
        }
      }
    }

    /** Queues one alias text unless it was recorded since the last reset. */
    method QueueOnce(typeDef: string)
      requires Valid()
      modifies Writer(currentSection)
      ensures Model() == Generator.QueueOnce(old(Model()), typeDef)
    {
      var seen := HaveSeenType(typeDef);
      if !seen {
        DelayedWrite(typeDef);
        SeenType(typeDef);
      }
    }

    // ----- bindings section -----

    method PrintBinding(n: Node)
      requires Valid()
      modifies this, Writers()
      ensures Model() == Generator.PrintBinding(old(Model()), n, cs)
    {
      CheckSection(Bindings);
      var name := GetSomeAttribute(n, "name");
      if name.None? {
        return;
      }
      var typeName := GetSomeAttribute(n, "type");
      if typeName.None? {
        return;
      }
      var structName := cs.pascal(name.value);
      var traitName := FetchType(typeName.value, cs);
      Write(ImplOpen(structName, traitName));
      PrintBindingOperations(n);
      Write(CloseLine);
      PrintDefaultConstructor(structName);
      FlushDelayedBuffer();
    }

    /** Every operation of a binding, in order. */
    method PrintBindingOperations(n: Node)
      requires Valid()
      modifies Writer(currentSection)
      ensures Model() == Generator.BindingOperations(old(Model()), n, |n.children|, cs)
    {
      var i := 0;
      while i < |n.children|
        invariant i <= |n.children|
        invariant Model() == Generator.BindingOperations(old(Model()), n, i, cs)
      {
        PrintBindingOperation(n.children[i]);
        i := i + 1;
      }
    }

    method PrintDefaultConstructor(structName: string)
      requires Valid()
      modifies Writer(currentSection)
      ensures Model() == old(Model()).Write(DefaultConstructor(structName))
    {
      Write(DefaultConstructor(structName));
    }

    method PrintBindingOperation(n: Node)
      requires Valid()
      modifies Writer(currentSection)
      ensures Model() == Generator.PrintBindingOperation(old(Model()), n, cs)
    {
      var name := GetSomeAttribute(n, "name");
      if name.None? {
        return;
      }
      var funcName := cs.snake(name.value);
      var someInput := Generator.NameOf(FindChild(n, "input"));
      var someOutput := Generator.NameOf(FindChild(n, "output"));
      var someFault := Generator.NameOf(FindChild(n, "fault"));
      var t := Generator.BindingOperationTemplates(name.value, someInput, someOutput, someFault, cs);
      Write(FnOpen(funcName, t.input, t.output));
      Write(Unimplemented);
      Write(CloseFn);
      DelayedWrite(t.wrapperIn);
      DelayedWrite(t.wrapperOut);
    }

    // ----- dispatch -----

    method PrintDefinitions(n: Node)
      requires Valid()
      modifies this, Writers()
      ensures Model() == Generator.PrintDefinitions(old(Model()), n, cs)
    {
      var i := 0;
      while i < |n.children|
        invariant i <= |n.children|
        invariant Model() == Generator.DefinitionChildren(old(Model()), n, i, cs)
      {
        PrintDefinition(n.children[i]);
        i := i + 1;
      }
    }

    method PrintDefinition(child: Node)
      requires Valid()
      modifies this, Writers()
      ensures Model() == Generator.DefinitionChild(old(Model()), child, cs)
    {
      if child.tag == "types" {
        PrintXsd(child);
      } else if child.tag == "message" {
        PrintMessage(child);
      } else if child.tag == "portType" {
        PrintPortType(child);
      } else if child.tag == "binding" {
        PrintBinding(child);
      }
    }

    method Print(n: Node)
      requires Valid()
      modifies this, Writers()
      ensures Model() == Generator.Print(old(Model()), n, cs)
    {
      if n.tag == "definitions" {
        PrintDefinitions(n);
      } else if n.tag == "schema" {
        PrintXsd(n);
      }
    }

    /** `process_file` once the file is read and parsed: the preamble, then every node of the document. */
    method ProcessDocument(doc: Node)
      requires Valid()
      modifies this, Writers()
      ensures Model() == Generator.ProcessDocument(old(Model()), doc, cs)
    {
      PrintHeader();
      ghost var start := Model();
      var nodes := Generator.Descendants(doc);
      var i := 0;
      while i < |nodes|
        invariant i <= |nodes|
        invariant Model() == Generator.PrintNodes(start, nodes[..i], cs)
      {
        assert nodes[..i + 1][..i] == nodes[..i];
        Print(nodes[i]);
        i := i + 1;
      }
      assert nodes[..i] == nodes;
    }
  }
}
