/**
 * The rules the emitters follow when they turn one schema or WSDL node into
 * text: how a field's Rust type is chosen, and which return clause and
 * wrappers an operation gets.
 */
module EmitterRules {
  import opened Wrappers
  import opened Nodes
  import opened TypeResolver
  import opened Staging
  import opened Templates
  import opened Generator
  import opened Layering

  // ----- fields of a struct -----

  /** A repeated element is a `Vec` even when it is also nillable; a nillable one is an `Option`. */
  lemma FieldTypeRule(typeName: string, asVec: bool, asOption: bool, cs: Casing)
    ensures asVec ==> FieldType(typeName, asVec, asOption, cs) == "Vec<" + FetchType(typeName, cs) + ">"
    ensures !asVec && asOption ==> FieldType(typeName, asVec, asOption, cs) == "Option<" + FetchType(typeName, cs) + ">"
    ensures !asVec && !asOption ==> FieldType(typeName, asVec, asOption, cs) == FetchType(typeName, cs)
  {
    if asVec {
      assert "Vec" + "<" == "Vec<";
    } else if asOption {
      assert "Option" + "<" == "Option<";
    }
  }

  /**
   * A typed element without a nested complex type prints the same text, at
   * any level, as every other element with the same name and type and the
   * same presence of `maxOccurs` and `nillable`: their values never matter.
   * `Ready(g)` is not a demand of the source: every state the emitters reach
   * has it (`Staging.UnitStepsKeepReady`), and the layer form of the emitted
   * text below level 0 is stated for such states.
   */
  lemma FieldByPresence(g: Gen, n1: Node, n2: Node, cs: Casing)
    requires Ready(g)
    requires GetSomeAttribute(n1, "name") == GetSomeAttribute(n2, "name")
    requires GetSomeAttribute(n1, "type") == GetSomeAttribute(n2, "type")
    requires FindChild(n1, "complexType") == None && FindChild(n2, "complexType") == None
    requires GetSomeAttribute(n1, "maxOccurs").Some? == GetSomeAttribute(n2, "maxOccurs").Some?
    requires GetSomeAttribute(n1, "nillable").Some? == GetSomeAttribute(n2, "nillable").Some?
    ensures PrintElement(g, n1, cs) == PrintElement(g, n2, cs)
  {
    if g.level == 0 {
      ElementAtTop(g, n1, cs);
      ElementAtTop(g, n2, cs);
    } else {
      var off :| off + 1 == g.level;
      ElementWrites(g, n1, off, g.tns, cs);
      ElementWrites(g, n2, off, g.tns, cs);
    }
  }

  /**
   * Below level 0 an element with `maxOccurs` present, whatever its value
   * (even `1`), becomes one `Vec` field of the enclosing struct.
   */
  lemma RepeatedIsVec(g: Gen, n: Node, off: nat, name: string, typeName: string, cs: Casing)
    requires Ready(g) && off + 1 == g.level
    requires GetSomeAttribute(n, "name") == Some(name) && GetSomeAttribute(n, "type") == Some(typeName)
    requires FindChild(n, "complexType") == None && GetSomeAttribute(n, "maxOccurs").Some?
    ensures var asOption := GetSomeAttribute(n, "nillable").Some?;
      PrintElement(g, n, cs) == Stacked(g, off, [RenameLine(name, g.tns) + FieldLine(name, typeName, true, asOption, cs)]) &&
      FieldType(typeName, true, asOption, cs) == "Vec<" + FetchType(typeName, cs) + ">"
  {
    ElementWrites(g, n, off, g.tns, cs);
    FieldTypeRule(typeName, true, GetSomeAttribute(n, "nillable").Some?, cs);
  }

  /** A field whose snake-cased name is the keyword `type` is renamed; its serializer name is kept. */
  lemma KeywordFieldRenamed(name: string, typeName: string, asVec: bool, asOption: bool, cs: Casing)
    requires cs.snake(name) == "type"
    ensures FieldLine(name, typeName, asVec, asOption, cs) ==
            "\tpub rs_type: " + FieldType(typeName, asVec, asOption, cs) + ",\n"
  {
  }

  /** At level 0 the same element is a type alias, which ignores `maxOccurs` and `nillable`. */
  lemma TopLevelAliasIgnoresOccurs(n: Node, name: string, typeName: string, tns: Option<string>, cs: Casing)
    requires GetSomeAttribute(n, "name") == Some(name) && GetSomeAttribute(n, "type") == Some(typeName)
    requires FindChild(n, "complexType") == None
    ensures TopLevelText(n, tns, cs) == "pub type " + cs.pascal(name) + " = " + FetchType(typeName, cs) + ";\n\n"
  {
  }

  // ----- operations of an interface -----

  predicate Complete(c: Option<(Option<string>, Option<string>)>)
  {
    c.Some? && c.value.0.Some? && c.value.1.Some?
  }

  /**
   * The return clause of an interface method: none without a complete
   * output; `Result` over output and fault when both are complete; the output
   * alone otherwise. A fault without an output is ignored, and so is an
   * incomplete input.
   */
  lemma ReturnClause(input: Option<(Option<string>, Option<string>)>,
                     output: Option<(Option<string>, Option<string>)>,
                     fault: Option<(Option<string>, Option<string>)>, cs: Casing)
    ensures var t := OperationTemplates(input, output, fault, cs);
      (t.output == [] <==> !Complete(output)) &&
      (t.outputType == [] <==> !Complete(output)) &&
      (t.faultType.Some? <==> Complete(output) && Complete(fault)) &&
      (t.input == [] <==> !Complete(input)) &&
      (t.inputType == [] <==> !Complete(input)) &&
      (Complete(output) && Complete(fault) ==>
         t.output == "-> Result<" + cs.pascal(output.value.0.value) + ", " + cs.pascal(fault.value.0.value) + ">" &&
         t.faultType == Some(MessageAlias(fault.value.0.value, fault.value.1.value, cs))) &&
      (Complete(output) && !Complete(fault) ==> t.output == "-> " + cs.pascal(output.value.0.value)) &&
      (Complete(input) ==> t.input == cs.snake(input.value.0.value) + ": " + cs.pascal(input.value.0.value))
  {
    var t := OperationTemplates(input, output, fault, cs);
    if Complete(output) {
      assert t.output[0] == '-';
      assert t.outputType[0] == 'p';
    }
    if Complete(input) {
      assert t.inputType[0] == 'p';
      assert |t.input| >= 2;
    }
  }

  // ----- operations of a binding -----

  /**
   * A binding method returns nothing without a named output, a `Result`
   * over the interface types when the fault is named too, and the output
   * type otherwise; a fault without a named output is ignored.
   */
  lemma BindingReturnClause(output: Option<Option<string>>, fault: Option<Option<string>>, cs: Casing)
    ensures var r := BindingReturn(output, fault, cs);
      (r == [] <==> !Named(output)) &&
      (Named(output) && Named(fault) ==>
         r == "-> Result<" + PortsMod + "::" + cs.pascal(output.value.value) + ", " +
              PortsMod + "::" + cs.pascal(fault.value.value) + ">") &&
      (Named(output) && !Named(fault) ==> r == "-> " + PortsMod + "::" + cs.pascal(output.value.value))
  {
    if Named(output) {
      assert BindingReturn(output, fault, cs)[0] == '-';
    }
  }

  /** The method argument is empty exactly when the input is not named. */
  lemma BindingArgumentClause(input: Option<Option<string>>, cs: Casing)
    ensures BindingArgument(input, cs) == [] <==> !Named(input)
  {
    if Named(input) {
      assert |BindingArgument(input, cs)| >= |": " + PortsMod + "::"|;
    }
  }
}
