/**
 * The states the generator passes through between the top-level constructs
 * of a document, and how the text of one state extends that of an earlier one.
 */
module RunStates {
  import opened Staging
  import opened Generator

  predicate StageSettled(st: Stage)
  {
    st.level == 0 && st.buffers == [] && st.delayed.AtEnd()
  }

  /** The state between two top-level constructs: every section is settled. */
  predicate Settled(g: Gen)
  {
    g.level == 0 && forall s: Section :: StageSettled(g.mods.Get(s))
  }

  /** The final text and the delayed text of `b` extend those of `a`. */
  predicate StageGrows(a: Stage, b: Stage)
  {
    a.final <= b.final && a.delayed.data <= b.delayed.data
  }

  /** Every section of `h` extends the same section of `g`. */
  predicate Grows(g: Gen, h: Gen)
  {
    forall s: Section :: StageGrows(g.mods.Get(s), h.mods.Get(s))
  }

  /** Section `s` of `h` extends that of `g`, and every other section is unchanged. */
  predicate Extends(g: Gen, h: Gen, s: Section)
  {
    StageGrows(g.mods.Get(s), h.mods.Get(s)) && forall t: Section :: t != s ==> h.mods.Get(t) == g.mods.Get(t)
  }
}

/**
 * Whole-run properties of the generator. Between the top-level constructs
 * every section is *settled*: at level 0, with an empty stack and the
 * delayed cursor at its end. Every construct the document dispatches keeps
 * that, and only ever appends to the final text and to the delayed text of
 * each section.
 */
module Properties {
  import opened Wrappers
  import opened Cursors
  import opened Nodes
  import opened TypeResolver
  import opened Staging
  import opened Templates
  import opened Generator
  import opened Layering
  import opened RunStates

  // ----- the steps -----

  /** Updating the current section leaves every other section as it was. */
  lemma UpdateGet(g: Gen, st: Stage, s: Section)
    ensures g.Update(st).mods.Get(s) == if s == g.current then st else g.mods.Get(s)
  {
    match g.current
    case Root =>
    case Types =>
    case Messages =>
    case PortTypes =>
    case Bindings =>
  }

  lemma UpdateKeeps(g: Gen, st: Stage)
    requires Settled(g) && StageSettled(st) && StageGrows(g.Cur(), st)
    ensures var h := g.Update(st);
      Settled(h) && Extends(g, h, g.current) && h.Cur() == st && h.current == g.current && h.tns == g.tns
  {
    forall s: Section
      ensures g.Update(st).mods.Get(s) == if s == g.current then st else g.mods.Get(s)
    {
      UpdateGet(g, st, s);
    }
  }

  /** Switching sections, or taking another target namespace, changes no text. */
  lemma SwitchKeeps(g: Gen, s: Section, tns: Option<string>)
    requires Settled(g)
    ensures var h := g.CheckSection(s);
      Settled(h) && Extends(g, h, g.current) && h.current == s && h.tns == g.tns && h.mods == g.mods
    ensures Settled(g.(tns := tns)) && Extends(g, g.(tns := tns), g.current)
  {
  }

  lemma ExtendsTrans(g: Gen, h: Gen, k: Gen, s: Section)
    requires Extends(g, h, s) && Extends(h, k, s)
    ensures Extends(g, k, s)
  {
  }

  /** A construct that only appends to its own section lets every section grow. */
  lemma ExtendsGrows(g: Gen, h: Gen, s: Section)
    requires Extends(g, h, s)
    ensures Grows(g, h) && (s != Root ==> h.mods.root == g.mods.root)
  {
    assert h.mods.Get(Root) == h.mods.root;
  }

  lemma WriteKeeps(g: Gen, t: string)
    requires Settled(g)
    ensures var h := g.Write(t);
      Settled(h) && Extends(g, h, g.current) && h.current == g.current && h.tns == g.tns &&
      h.Cur() == g.Cur().(final := g.Cur().final + t)
  {
    UpdateKeeps(g, g.Cur().Write(t, 0));
  }

  lemma DelayedWriteKeeps(g: Gen, t: string)
    requires Settled(g)
    ensures var h := g.DelayedWrite(t);
      Settled(h) && Extends(g, h, g.current) && h.current == g.current && h.tns == g.tns &&
      h.Cur() == g.Cur().(delayed := Cursor(g.Cur().delayed.data + t, |g.Cur().delayed.data + t|))
  {
    WriteAtEndAppends(g.Cur().delayed, t);
    UpdateKeeps(g, g.Cur().DelayedWrite(t));
  }

  lemma FlushDelayedKeeps(g: Gen)
    requires Settled(g)
    ensures var h := g.FlushDelayedBuffer();
      Settled(h) && Extends(g, h, g.current) && h.current == g.current && h.tns == g.tns &&
      h.Cur() == g.Cur().(final := g.Cur().final + g.Cur().delayed.data)
  {
    UpdateKeeps(g, g.Cur().FlushDelayedBuffer());
  }

  lemma RecordKeeps(g: Gen, t: string)
    requires Settled(g)
    ensures var h := g.SeenType(t);
      Settled(h) && Extends(g, h, g.current) && h.current == g.current && h.tns == g.tns &&
      h.Cur() == g.Cur().(defined := g.Cur().defined + [t])
    ensures var h := g.ResetDefinedTypes();
      Settled(h) && Extends(g, h, g.current) && h.current == g.current && h.tns == g.tns &&
      h.Cur() == g.Cur().(defined := [])
  {
    UpdateKeeps(g, g.Cur().SeenType(t));
    UpdateKeeps(g, g.Cur().ResetDefinedTypes());
  }

  // ----- queueing the aliases of an interface -----

  /**
   * An alias text is queued and recorded when it was not recorded yet, and
   * is otherwise left out; the final text does not change.
   */
  lemma QueueOnceKeeps(g: Gen, t: string)
    requires Settled(g)
    ensures var h := QueueOnce(g, t);
      Settled(h) && Extends(g, h, g.current) && h.current == g.current && h.tns == g.tns &&
      h.HaveSeenType(t) && h.Cur().final == g.Cur().final &&
      h.Cur().delayed.data == g.Cur().delayed.data + (if g.HaveSeenType(t) then [] else t) &&
      h.Cur().defined == g.Cur().defined + (if g.HaveSeenType(t) then [] else [t])
  {
    if !g.HaveSeenType(t) {
      DelayedWriteKeeps(g, t);
      RecordKeeps(g.DelayedWrite(t), t);
      ExtendsTrans(g, g.DelayedWrite(t), QueueOnce(g, t), g.current);
    }
  }

  /**
   * What queueing the aliases of one operation adds to the current section:
   * the input, then the output, then the fault, each one only when it is
   * neither recorded in `g` nor one of the aliases queued before it, to both
   * the delayed text and the record.
   */
  predicate QueuedAliases(g: Gen, h: Gen, input: string, output: string, fault: Option<string>)
  {
    var newIn := !g.HaveSeenType(input);
    var newOut := !g.HaveSeenType(output) && output != input;
    var newFault := fault.Some? && !g.HaveSeenType(fault.value) && fault.value != input && fault.value != output;
    h.Cur().delayed.data == g.Cur().delayed.data + (if newIn then input else []) + (if newOut then output else []) +
                            (if newFault then fault.value else []) &&
    h.Cur().defined == g.Cur().defined + (if newIn then [input] else []) + (if newOut then [output] else []) +
                       (if newFault then [fault.value] else [])
  }

  /** Queueing adds each alias not seen before, in order, and leaves the final text as it was. */
  lemma QueuePortTypesKeeps(g: Gen, input: string, output: string, fault: Option<string>)
    requires Settled(g)
    ensures var h := QueuePortTypes(g, input, output, fault);
      Settled(h) && Extends(g, h, g.current) && h.current == g.current && h.tns == g.tns && h.Cur().final == g.Cur().final &&
      QueuedAliases(g, h, input, output, fault)
  {
    var g2 := QueueOnce(QueueOnce(g, input), output);
    QueueTwoKeeps(g, input, output);
    assert QueuePortTypes(g, input, output, fault) ==
           if fault.Some? && !g2.HaveSeenType(fault.value) then g2.SeenType(fault.value).DelayedWrite(fault.value) else g2;
    if fault.Some? {
      SeenAfterTwo(g, input, output, fault.value);
      if !g2.HaveSeenType(fault.value) {
        FaultKeeps(g2, fault.value);
        ExtendsTrans(g, g2, g2.SeenType(fault.value).DelayedWrite(fault.value), g.current);
      }
    }
  }

  /** After the input and output are queued, a text counts as recorded when it was, or when it is one of them. */
  lemma SeenAfterTwo(g: Gen, input: string, output: string, f: string)
    requires Settled(g)
    ensures QueueOnce(QueueOnce(g, input), output).HaveSeenType(f) <==>
            g.HaveSeenType(f) || f == input || f == output
  {
    QueueTwoKeeps(g, input, output);
  }

  /** The input and output aliases: each is added once, and both are recorded afterwards. */
  lemma QueueTwoKeeps(g: Gen, input: string, output: string)
    requires Settled(g)
    ensures var h := QueueOnce(QueueOnce(g, input), output);
      var newIn := !g.HaveSeenType(input);
      var newOut := !g.HaveSeenType(output) && output != input;
      Settled(h) && Extends(g, h, g.current) && h.current == g.current && h.tns == g.tns && h.Cur().final == g.Cur().final &&
      h.Cur().delayed.data == g.Cur().delayed.data + (if newIn then input else []) + (if newOut then output else []) &&
      h.Cur().defined == g.Cur().defined + (if newIn then [input] else []) + (if newOut then [output] else [])
  {
    var g1 := QueueOnce(g, input);
    QueueOnceKeeps(g, input);
    QueueOnceKeeps(g1, output);
    ExtendsTrans(g, g1, QueueOnce(g1, output), g.current);
  }

  /** The fault alias is recorded first and queued second. */
  lemma FaultKeeps(g: Gen, f: string)
    requires Settled(g)
    ensures var h := g.SeenType(f).DelayedWrite(f);
      Settled(h) && Extends(g, h, g.current) && h.current == g.current && h.tns == g.tns && h.Cur().final == g.Cur().final &&
      h.Cur().delayed.data == g.Cur().delayed.data + f && h.Cur().defined == g.Cur().defined + [f]
  {
    RecordKeeps(g, f);
    DelayedWriteKeeps(g.SeenType(f), f);
    ExtendsTrans(g, g.SeenType(f), g.SeenType(f).DelayedWrite(f), g.current);
  }

  /** Queueing records each of its texts, and keeps what was recorded before. */
  lemma {:induction false} QueueRecords(g: Gen, input: string, output: string, fault: Option<string>)
    ensures var h := QueuePortTypes(g, input, output, fault);
      h.current == g.current && g.Cur().defined <= h.Cur().defined &&
      h.HaveSeenType(input) && h.HaveSeenType(output) && (fault.Some? ==> h.HaveSeenType(fault.value))
  {
    var g1 := QueueOnce(g, input);
    RecordOnce(g, input);
    RecordOnce(g1, output);
    var g2 := QueueOnce(g1, output);
    if fault.Some? && !g2.HaveSeenType(fault.value) {
      var st := g2.Cur().SeenType(fault.value);
      UpdateTwice(g2, st, st.DelayedWrite(fault.value));
    }
  }

  lemma RecordOnce(g: Gen, t: string)
    ensures var h := QueueOnce(g, t);
      h.current == g.current && g.Cur().defined <= h.Cur().defined && h.HaveSeenType(t)
  {
    if !g.HaveSeenType(t) {
      var st := g.Cur().DelayedWrite(t);
      UpdateTwice(g, st, st.SeenType(t));
    }
  }

  /** Until the record is reset, queueing the same texts again changes nothing. */
  lemma QueueIdempotent(g: Gen, input: string, output: string, fault: Option<string>)
    ensures var h := QueuePortTypes(g, input, output, fault);
      QueuePortTypes(h, input, output, fault) == h
  {
    QueueRecords(g, input, output, fault);
  }

  /** After a reset, a text recorded before is queued again. */
  lemma QueueAfterReset(g: Gen, t: string)
    requires Settled(g)
    ensures QueueOnce(g.ResetDefinedTypes(), t).Cur().delayed.data == g.Cur().delayed.data + t
  {
    RecordKeeps(g, t);
    QueueOnceKeeps(g.ResetDefinedTypes(), t);
  }

  // ----- interfaces -----

  /**
   * A named operation appends its method signature to the final text and
   * queues the aliases of its messages; an unnamed one is skipped.
   */
  lemma OperationKeeps(g: Gen, n: Node, cs: Casing)
    requires Settled(g)
    ensures var h := PrintOperation(g, n, cs);
      Settled(h) && Extends(g, h, g.current) && h.current == g.current && h.tns == g.tns
    ensures GetSomeAttribute(n, "name").None? ==> PrintOperation(g, n, cs) == g
    ensures GetSomeAttribute(n, "name").Some? ==>
      var t := OperationTemplates(MapNameMessage(FindChild(n, "input")), MapNameMessage(FindChild(n, "output")),
                                  MapNameMessage(FindChild(n, "fault")), cs);
      var h := PrintOperation(g, n, cs);
      h.Cur().final == g.Cur().final + FnSignature(cs.snake(GetSomeAttribute(n, "name").value), t.input, t.output) &&
      QueuedAliases(g, h, t.inputType, t.outputType, t.faultType)
  {
    match GetSomeAttribute(n, "name")
    case None =>
    case Some(name) =>
      var t := OperationTemplates(MapNameMessage(FindChild(n, "input")), MapNameMessage(FindChild(n, "output")),
                                  MapNameMessage(FindChild(n, "fault")), cs);
      var g1 := QueuePortTypes(g, t.inputType, t.outputType, t.faultType);
      QueuePortTypesKeeps(g, t.inputType, t.outputType, t.faultType);
      WriteKeeps(g1, FnSignature(cs.snake(name), t.input, t.output));
      ExtendsTrans(g, g1, PrintOperation(g, n, cs), g.current);
  }

  /** One operation in the terms of its signature text, named or not. */
  lemma OperationAppends(g: Gen, n: Node, cs: Casing)
    requires Settled(g)
    ensures var h := PrintOperation(g, n, cs);
      Settled(h) && Extends(g, h, g.current) && h.current == g.current && h.tns == g.tns &&
      h.Cur().final == g.Cur().final + OperationText(n, cs)
  {
    OperationKeeps(g, n, cs);
    if GetSomeAttribute(n, "name").None? {
      assert g.Cur().final + [] == g.Cur().final;
    }
  }

  /** The method signature a named operation adds to its trait; an unnamed one adds nothing. */
  function OperationText(c: Node, cs: Casing): string
  {
    match GetSomeAttribute(c, "name")
    case None => []
    case Some(name) =>
      var t := OperationTemplates(MapNameMessage(FindChild(c, "input")), MapNameMessage(FindChild(c, "output")),
                                  MapNameMessage(FindChild(c, "fault")), cs);
      FnSignature(cs.snake(name), t.input, t.output)
  }

  /** The signatures of the first `k` children of an interface, in document order. */
  function OperationTexts(n: Node, k: nat, cs: Casing): string
    requires k <= |n.children|
  {
    if k == 0 then [] else OperationTexts(n, k - 1, cs) + OperationText(n.children[k - 1], cs)
  }

  /** The operations append their signatures, one per named child in document order, and only queue more aliases. */
  lemma {:induction false} OperationsKeep(g: Gen, n: Node, k: nat, cs: Casing)
    requires Settled(g) && k <= |n.children|
    ensures var h := Operations(g, n, k, cs);
      Settled(h) && Extends(g, h, g.current) && h.current == g.current && h.tns == g.tns &&
      h.Cur().final == g.Cur().final + OperationTexts(n, k, cs)
  {
    if k == 0 {
      assert g.Cur().final + [] == g.Cur().final;
    } else {
      var g1 := Operations(g, n, k - 1, cs);
      var c := n.children[k - 1];
      OperationsKeep(g, n, k - 1, cs);
      OperationAppends(g1, c, cs);
      AppendStep(g, g1, PrintOperation(g1, c, cs), OperationTexts(n, k - 1, cs), OperationText(c, cs));
    }
  }

  /** Closing an interface: the brace, every queued alias, then an empty record. */
  lemma PortTypeCloses(g: Gen)
    requires Settled(g)
    ensures var h := g.Write(CloseLine).FlushDelayedBuffer().ResetDefinedTypes();
      Settled(h) && Extends(g, h, g.current) && h.current == g.current && h.tns == g.tns &&
      h.Cur().defined == [] && h.Cur().delayed == g.Cur().delayed &&
      h.Cur().final == g.Cur().final + CloseLine + g.Cur().delayed.data
  {
    var g1 := g.Write(CloseLine);
    var g2 := g1.FlushDelayedBuffer();
    WriteKeeps(g, CloseLine);
    FlushDelayedKeeps(g1);
    RecordKeeps(g2, "");
    ExtendsTrans(g, g1, g2, g.current);
    ExtendsTrans(g, g2, g2.ResetDefinedTypes(), g.current);
  }

  /**
   * An interface is the trait opening, one signature per named operation in
   * document order, and the closing brace, followed by everything ever queued
   * in its section, the aliases of earlier interfaces included; the record is
   * left empty.
   */
  lemma PortTypeKeeps(g: Gen, n: Node, cs: Casing)
    requires Settled(g)
    ensures var h := PrintPortType(g, n, cs);
      Settled(h) && Extends(g, h, PortTypes) && h.current == PortTypes && h.tns == g.tns
    ensures GetSomeAttribute(n, "name").Some? ==>
      var st := PrintPortType(g, n, cs).mods.portTypes;
      st.defined == [] && g.mods.portTypes.delayed.data <= st.delayed.data &&
      st.final == g.mods.portTypes.final + TraitOpen(GetSomeAttribute(n, "name").value, cs) +
                  OperationTexts(n, |n.children|, cs) + CloseLine + st.delayed.data
  {
    var g1 := g.CheckSection(PortTypes);
    SwitchKeeps(g, PortTypes, g.tns);
    match GetSomeAttribute(n, "name")
    case None =>
    case Some(name) =>
      var g2 := g1.Write(TraitOpen(name, cs));
      var g3 := Operations(g2, n, |n.children|, cs);
      WriteKeeps(g1, TraitOpen(name, cs));
      OperationsKeep(g2, n, |n.children|, cs);
      PortTypeCloses(g3);
      ExtendsTrans(g1, g2, g3, PortTypes);
      ExtendsTrans(g1, g3, PrintPortType(g, n, cs), PortTypes);
  }

  // ----- bindings -----

  /**
   * A named binding operation appends a stub method to the final text and
   * queues the envelope wrappers of its input and output, in that order;
   * an unnamed one is skipped.
   */
  lemma BindingOperationKeeps(g: Gen, n: Node, cs: Casing)
    requires Settled(g)
    ensures var h := PrintBindingOperation(g, n, cs);
      Settled(h) && Extends(g, h, g.current) && h.current == g.current && h.tns == g.tns && h.Cur().defined == g.Cur().defined
    ensures GetSomeAttribute(n, "name").None? ==> PrintBindingOperation(g, n, cs) == g
    ensures GetSomeAttribute(n, "name").Some? ==>
      var name := GetSomeAttribute(n, "name").value;
      var t := BindingOperationTemplates(name, NameOf(FindChild(n, "input")), NameOf(FindChild(n, "output")),
                                         NameOf(FindChild(n, "fault")), cs);
      var h := PrintBindingOperation(g, n, cs);
      h.Cur().final == g.Cur().final + FnOpen(cs.snake(name), t.input, t.output) + Unimplemented + CloseFn &&
      h.Cur().delayed.data == g.Cur().delayed.data + t.wrapperIn + t.wrapperOut
  {
    match GetSomeAttribute(n, "name")
    case None =>
    case Some(name) =>
      var t := BindingOperationTemplates(name, NameOf(FindChild(n, "input")), NameOf(FindChild(n, "output")),
                                         NameOf(FindChild(n, "fault")), cs);
      var g1 := g.Write(FnOpen(cs.snake(name), t.input, t.output));
      var g2 := g1.Write(Unimplemented);
      var g3 := g2.Write(CloseFn);
      var g4 := g3.DelayedWrite(t.wrapperIn);
      WriteKeeps(g, FnOpen(cs.snake(name), t.input, t.output));
      WriteKeeps(g1, Unimplemented);
      WriteKeeps(g2, CloseFn);
      DelayedWriteKeeps(g3, t.wrapperIn);
      DelayedWriteKeeps(g4, t.wrapperOut);
      ExtendsTrans(g, g1, g2, g.current);
      ExtendsTrans(g, g2, g3, g.current);
      ExtendsTrans(g, g3, g4, g.current);
      ExtendsTrans(g, g4, PrintBindingOperation(g, n, cs), g.current);
  }

  /** One binding operation in the terms of its texts, named or not. */
  lemma BindingOperationAppends(g: Gen, n: Node, cs: Casing)
    requires Settled(g)
    ensures var h := PrintBindingOperation(g, n, cs);
      Settled(h) && Extends(g, h, g.current) && h.current == g.current && h.tns == g.tns && h.Cur().defined == g.Cur().defined &&
      h.Cur().final == g.Cur().final + BindingOperationText(n, cs) &&
      h.Cur().delayed.data == g.Cur().delayed.data + WrapperText(n, cs)
  {
    BindingOperationKeeps(g, n, cs);
    match GetSomeAttribute(n, "name")
    case None =>
      assert g.Cur().final + [] == g.Cur().final;
      assert g.Cur().delayed.data + [] == g.Cur().delayed.data;
    case Some(name) =>
      var t := BindingOperationTemplates(name, NameOf(FindChild(n, "input")), NameOf(FindChild(n, "output")),
                                         NameOf(FindChild(n, "fault")), cs);
      ConcatAssoc(g.Cur().final, FnOpen(cs.snake(name), t.input, t.output) + Unimplemented, CloseFn);
      ConcatAssoc(g.Cur().final, FnOpen(cs.snake(name), t.input, t.output), Unimplemented);
      ConcatAssoc(g.Cur().delayed.data, t.wrapperIn, t.wrapperOut);
  }

  lemma ConcatAssoc(x: string, a: string, b: string)
    ensures x + a + b == x + (a + b)
  {
  }

  /** The stub method a named binding operation adds; an unnamed one adds nothing. */
  function BindingOperationText(c: Node, cs: Casing): string
  {
    match GetSomeAttribute(c, "name")
    case None => []
    case Some(name) =>
      var t := BindingOperationTemplates(name, NameOf(FindChild(c, "input")), NameOf(FindChild(c, "output")),
                                         NameOf(FindChild(c, "fault")), cs);
      FnOpen(cs.snake(name), t.input, t.output) + Unimplemented + CloseFn
  }

  /** The wrappers a named binding operation queues, input before output; an unnamed one queues nothing. */
  function WrapperText(c: Node, cs: Casing): string
  {
    match GetSomeAttribute(c, "name")
    case None => []
    case Some(name) =>
      var t := BindingOperationTemplates(name, NameOf(FindChild(c, "input")), NameOf(FindChild(c, "output")),
                                         NameOf(FindChild(c, "fault")), cs);
      t.wrapperIn + t.wrapperOut
  }

  /** The stubs of the first `k` children of a binding, in document order. */
  function BindingTexts(n: Node, k: nat, cs: Casing): string
    requires k <= |n.children|
  {
    if k == 0 then [] else BindingTexts(n, k - 1, cs) + BindingOperationText(n.children[k - 1], cs)
  }

  /** The wrappers of the first `k` children of a binding, in document order. */
  function WrapperTexts(n: Node, k: nat, cs: Casing): string
    requires k <= |n.children|
  {
    if k == 0 then [] else WrapperTexts(n, k - 1, cs) + WrapperText(n.children[k - 1], cs)
  }

  /**
   * The binding operations append their stubs to the final text and their
   * wrappers to the delayed text, each in document order; the record is kept.
   */
  lemma {:induction false} BindingOperationsKeep(g: Gen, n: Node, k: nat, cs: Casing)
    requires Settled(g) && k <= |n.children|
    ensures var h := BindingOperations(g, n, k, cs);
      Settled(h) && Extends(g, h, g.current) && h.current == g.current && h.tns == g.tns && h.Cur().defined == g.Cur().defined &&
      h.Cur().final == g.Cur().final + BindingTexts(n, k, cs) &&
      h.Cur().delayed.data == g.Cur().delayed.data + WrapperTexts(n, k, cs)
  {
    if k == 0 {
      assert g.Cur().final + [] == g.Cur().final;
      assert g.Cur().delayed.data + [] == g.Cur().delayed.data;
    } else {
      var g1 := BindingOperations(g, n, k - 1, cs);
      var c := n.children[k - 1];
      BindingOperationsKeep(g, n, k - 1, cs);
      BindingOperationAppends(g1, c, cs);
      AppendStep(g, g1, PrintBindingOperation(g1, c, cs), BindingTexts(n, k - 1, cs), BindingOperationText(c, cs));
      ConcatAssoc(g.Cur().delayed.data, WrapperTexts(n, k - 1, cs), WrapperText(c, cs));
      assert WrapperTexts(n, k, cs) == WrapperTexts(n, k - 1, cs) + WrapperText(c, cs);
      assert BindingOperations(g, n, k, cs).Cur().delayed.data == g.Cur().delayed.data + WrapperTexts(n, k, cs);
    }
  }

  /** Closing a binding: the brace, the default constructor, then every queued wrapper. */
  lemma BindingCloses(g: Gen, structName: string)
    requires Settled(g)
    ensures var h := g.Write(CloseLine).Write(DefaultConstructor(structName)).FlushDelayedBuffer();
      Settled(h) && Extends(g, h, g.current) && h.current == g.current && h.tns == g.tns &&
      h.Cur().delayed == g.Cur().delayed &&
      h.Cur().final == g.Cur().final + CloseLine + DefaultConstructor(structName) + g.Cur().delayed.data
  {
    var g1 := g.Write(CloseLine);
    var g2 := g1.Write(DefaultConstructor(structName));
    WriteKeeps(g, CloseLine);
    WriteKeeps(g1, DefaultConstructor(structName));
    FlushDelayedKeeps(g2);
    ExtendsTrans(g, g1, g2, g.current);
    ExtendsTrans(g, g2, g2.FlushDelayedBuffer(), g.current);
  }

  /**
   * A binding is the struct and `impl` opening, one stub per named operation
   * in document order, the closing brace and the `Default` implementation,
   * followed by every wrapper ever queued in its section: those of earlier
   * bindings, then its own.
   */
  lemma BindingKeeps(g: Gen, n: Node, cs: Casing)
    requires Settled(g)
    ensures var h := PrintBinding(g, n, cs);
      Settled(h) && Extends(g, h, Bindings) && h.current == Bindings && h.tns == g.tns
    ensures GetSomeAttribute(n, "name").Some? && GetSomeAttribute(n, "type").Some? ==>
      var structName := cs.pascal(GetSomeAttribute(n, "name").value);
      var st := PrintBinding(g, n, cs).mods.bindings;
      st.delayed.data == g.mods.bindings.delayed.data + WrapperTexts(n, |n.children|, cs) &&
      st.final == g.mods.bindings.final + ImplOpen(structName, FetchType(GetSomeAttribute(n, "type").value, cs)) +
                  BindingTexts(n, |n.children|, cs) + CloseLine + DefaultConstructor(structName) + st.delayed.data
  {
    var g1 := g.CheckSection(Bindings);
    SwitchKeeps(g, Bindings, g.tns);
    match GetSomeAttribute(n, "name")
    case None =>
    case Some(name) =>
      match GetSomeAttribute(n, "type")
      case None =>
      case Some(typeName) =>
        var structName := cs.pascal(name);
        var traitName := FetchType(typeName, cs);
        BindingBody(g1, n, structName, traitName, cs);
        ExtendsTrans(g, g1, PrintBinding(g, n, cs), Bindings);
        assert PrintBinding(g, n, cs) ==
               BindingOperations(g1.Write(ImplOpen(structName, traitName)), n, |n.children|, cs)
               .Write(CloseLine).Write(DefaultConstructor(structName)).FlushDelayedBuffer();
  }

  lemma BindingBody(g: Gen, n: Node, structName: string, traitName: string, cs: Casing)
    requires Settled(g) && g.current == Bindings
    ensures var h := BindingOperations(g.Write(ImplOpen(structName, traitName)), n, |n.children|, cs)
                     .Write(CloseLine).Write(DefaultConstructor(structName)).FlushDelayedBuffer();
      Settled(h) && Extends(g, h, Bindings) && h.current == Bindings && h.tns == g.tns &&
      h.mods.bindings.delayed.data == g.mods.bindings.delayed.data + WrapperTexts(n, |n.children|, cs) &&
      h.mods.bindings.final == g.mods.bindings.final + ImplOpen(structName, traitName) +
                               BindingTexts(n, |n.children|, cs) + CloseLine + DefaultConstructor(structName) +
                               h.mods.bindings.delayed.data
  {
    var g2 := g.Write(ImplOpen(structName, traitName));
    var g3 := BindingOperations(g2, n, |n.children|, cs);
    WriteKeeps(g, ImplOpen(structName, traitName));
    BindingOperationsKeep(g2, n, |n.children|, cs);
    BindingCloses(g3, structName);
    ExtendsTrans(g, g2, g3, Bindings);
    ExtendsTrans(g, g3, g3.Write(CloseLine).Write(DefaultConstructor(structName)).FlushDelayedBuffer(), Bindings);
  }

  // ----- messages -----

  /** The field text a message takes from its first part, if that part names both its field and its element. */
  function PartText(p: Option<Node>, cs: Casing): string
  {
    match p
    case None => []
    case Some(part) =>
      match GetSomeAttribute(part, "name")
      case None => []
      case Some(name) =>
        match GetSomeAttribute(part, "element")
        case None => []
        case Some(element) => FlattenLine + PartField(name, element, cs)
  }

  lemma PartKeeps(g: Gen, p: Node, cs: Casing)
    requires Settled(g)
    ensures var h := PrintPart(g, p, cs);
      Settled(h) && Extends(g, h, g.current) && h.current == g.current && h.tns == g.tns &&
      h.Cur().final == g.Cur().final + PartText(Some(p), cs)
  {
    match GetSomeAttribute(p, "name")
    case None =>
      assert g.Cur().final + [] == g.Cur().final;
    case Some(name) =>
      match GetSomeAttribute(p, "element")
      case None =>
        assert g.Cur().final + [] == g.Cur().final;
      case Some(element) =>
        var field := PartField(name, element, cs);
        assert PrintPart(g, p, cs) == g.Write(FlattenLine).Write(field);
        assert PartText(Some(p), cs) == FlattenLine + field;
        TwoWritesKeep(g, FlattenLine, field);
  }

  lemma TwoWritesKeep(g: Gen, a: string, b: string)
    requires Settled(g)
    ensures var h := g.Write(a).Write(b);
      Settled(h) && Extends(g, h, g.current) && h.current == g.current && h.tns == g.tns &&
      h.Cur().final == g.Cur().final + (a + b)
  {
    WriteKeeps(g, a);
    WriteKeeps(g.Write(a), b);
    ExtendsTrans(g, g.Write(a), g.Write(a).Write(b), g.current);
  }

  /**
   * A named message adds one struct to the messages section, without a
   * namespace prefix, whose only field comes from the first part: later
   * parts are ignored.
   */
  lemma MessageKeeps(g: Gen, n: Node, cs: Casing)
    requires Settled(g)
    ensures var h := PrintMessage(g, n, cs);
      Settled(h) && Extends(g, h, Messages) && h.current == Messages && h.tns == g.tns
    ensures GetSomeAttribute(n, "name").Some? ==>
      PrintMessage(g, n, cs).mods.messages.final ==
        g.mods.messages.final + DeriveLine + StructHeader(GetSomeAttribute(n, "name").value, None, cs) +
        PartText(FindChild(n, "part"), cs) + CloseLine
  {
    var g1 := g.CheckSection(Messages);
    SwitchKeeps(g, Messages, g.tns);
    match GetSomeAttribute(n, "name")
    case None =>
    case Some(name) =>
      MessageBody(g1, n, name, cs);
      assert PrintMessage(g, n, cs) == FirstPart(g1.Write(DeriveLine).Write(StructHeader(name, None, cs)), n, cs).Write(CloseLine);
      ExtendsTrans(g, g1, PrintMessage(g, n, cs), Messages);
  }

  lemma MessageBody(g: Gen, n: Node, name: string, cs: Casing)
    requires Settled(g) && g.current == Messages
    ensures var g2 := g.Write(DeriveLine).Write(StructHeader(name, None, cs));
      var h := FirstPart(g2, n, cs).Write(CloseLine);
      Settled(h) && Extends(g, h, Messages) && h.current == Messages && h.tns == g.tns &&
      h.mods.messages.final ==
        g.mods.messages.final + DeriveLine + StructHeader(name, None, cs) + PartText(FindChild(n, "part"), cs) + CloseLine
  {
    var g1 := g.Write(DeriveLine);
    var g2 := g1.Write(StructHeader(name, None, cs));
    var g3 := FirstPart(g2, n, cs);
    WriteKeeps(g, DeriveLine);
    WriteKeeps(g1, StructHeader(name, None, cs));
    FirstPartKeeps(g2, n, cs);
    WriteKeeps(g3, CloseLine);
    ExtendsTrans(g, g1, g2, Messages);
    ExtendsTrans(g, g2, g3, Messages);
    ExtendsTrans(g, g3, g3.Write(CloseLine), Messages);
  }

  /** The step of a message that prints its first part. */
  function FirstPart(g: Gen, n: Node, cs: Casing): Gen
  {
    match FindChild(n, "part")
    case Some(p) => PrintPart(g, p, cs)
    case None => g
  }

  lemma FirstPartKeeps(g: Gen, n: Node, cs: Casing)
    requires Settled(g)
    ensures var h := FirstPart(g, n, cs);
      Settled(h) && Extends(g, h, g.current) && h.current == g.current && h.tns == g.tns &&
      h.Cur().final == g.Cur().final + PartText(FindChild(n, "part"), cs)
  {
    match FindChild(n, "part")
    case Some(p) =>
      PartKeeps(g, p, cs);
    case None =>
      assert g.Cur().final + PartText(None, cs) == g.Cur().final;
  }

  // ----- schemas -----

  lemma SettledReady(g: Gen)
    requires Settled(g)
    ensures Ready(g) && StageSettled(g.Cur())
  {
  }

  /** What a child of a schema adds to the final text: a whole struct, or a type alias, or nothing. */
  function SchemaText(c: Node, tns: Option<string>, cs: Casing): string
  {
    if c.tag == "element" then TopLevelText(c, tns, cs)
    else if c.tag == "complexType" then
      match GetSomeAttribute(c, "name")
      case Some(name) => Unwind(ComplexLayers(c, name, tns, cs))
      case None => []
    else []
  }

  /** The texts of the first `k` children of a schema, in document order. */
  function SchemaTexts(n: Node, k: nat, tns: Option<string>, cs: Casing): string
    requires k <= |n.children|
  {
    if k == 0 then [] else SchemaTexts(n, k - 1, tns, cs) + SchemaText(n.children[k - 1], tns, cs)
  }

  /** A top-level schema child lands whole in the final text, nested structs first, and the stack is left empty. */
  lemma SchemaChildKeeps(g: Gen, c: Node, cs: Casing)
    requires Settled(g)
    ensures var h := XsdChild(g, c, cs);
      Settled(h) && Extends(g, h, g.current) && h.current == g.current && h.tns == g.tns &&
      h.Cur().final == g.Cur().final + SchemaText(c, g.tns, cs)
  {
    if c.tag == "element" {
      assert XsdChild(g, c, cs) == PrintElement(g, c, cs);
      assert SchemaText(c, g.tns, cs) == TopLevelText(c, g.tns, cs);
      TopElementKeeps(g, c, cs);
    } else if c.tag == "complexType" {
      match GetSomeAttribute(c, "name")
      case Some(name) =>
        assert XsdChild(g, c, cs) == PrintComplexElement(g, c, name, cs);
        assert SchemaText(c, g.tns, cs) == Unwind(ComplexLayers(c, name, g.tns, cs));
        TopComplexKeeps(g, c, name, cs);
      case None =>
        assert g.Cur().final + [] == g.Cur().final;
    } else {
      assert g.Cur().final + [] == g.Cur().final;
    }
  }

  lemma TopElementKeeps(g: Gen, c: Node, cs: Casing)
    requires Settled(g)
    ensures var h := PrintElement(g, c, cs);
      Settled(h) && Extends(g, h, g.current) && h.current == g.current && h.tns == g.tns &&
      h.Cur().final == g.Cur().final + TopLevelText(c, g.tns, cs)
  {
    SettledReady(g);
    var st := g.Cur();
    ElementAtTop(g, c, cs);
    UpdateKeeps(g, st.(final := st.final + TopLevelText(c, g.tns, cs)));
  }

  lemma TopComplexKeeps(g: Gen, c: Node, name: string, cs: Casing)
    requires Settled(g)
    ensures var h := PrintComplexElement(g, c, name, cs);
      Settled(h) && Extends(g, h, g.current) && h.current == g.current && h.tns == g.tns &&
      h.Cur().final == g.Cur().final + Unwind(ComplexLayers(c, name, g.tns, cs))
  {
    SettledReady(g);
    var st := g.Cur();
    ComplexAtTop(g, c, name, cs);
    UpdateKeeps(g, st.(final := st.final + Unwind(ComplexLayers(c, name, g.tns, cs))));
  }

  lemma {:induction false} SchemaChildrenKeep(g: Gen, n: Node, k: nat, cs: Casing)
    requires Settled(g) && k <= |n.children|
    ensures var h := XsdChildren(g, n, k, cs);
      Settled(h) && Extends(g, h, g.current) && h.current == g.current && h.tns == g.tns &&
      h.Cur().final == g.Cur().final + SchemaTexts(n, k, g.tns, cs)
  {
    if k == 0 {
      assert g.Cur().final + [] == g.Cur().final;
    } else {
      var g1 := XsdChildren(g, n, k - 1, cs);
      var c := n.children[k - 1];
      SchemaChildrenKeep(g, n, k - 1, cs);
      SchemaChildKeeps(g1, c, cs);
      AppendStep(g, g1, XsdChild(g1, c, cs), SchemaTexts(n, k - 1, g.tns, cs), SchemaText(c, g.tns, cs));
    }
  }

  /** Two steps that each append to the current section's final text append both texts. */
  lemma AppendStep(g: Gen, g1: Gen, h: Gen, a: string, b: string)
    requires Extends(g, g1, g.current) && g1.current == g.current && g1.tns == g.tns && g1.Cur().final == g.Cur().final + a
    requires Extends(g1, h, g.current) && h.current == g1.current && h.tns == g1.tns && h.Cur().final == g1.Cur().final + b
    ensures Extends(g, h, g.current) && h.current == g.current && h.tns == g.tns && h.Cur().final == g.Cur().final + (a + b)
  {
    ExtendsTrans(g, g1, h, g.current);
  }

  /**
   * A schema switches to the types section and takes its target namespace;
   * its top-level structs and aliases land in the types section's final text
   * in document order.
   */
  lemma SchemaKeeps(g: Gen, n: Node, cs: Casing)
    requires Settled(g)
    ensures var h := PrintXsd(g, n, cs);
      Settled(h) && Extends(g, h, Types) && h.current == Types && h.tns == GetSomeAttribute(n, "targetNamespace") &&
      h.mods.types.final == g.mods.types.final + SchemaTexts(n, |n.children|, GetSomeAttribute(n, "targetNamespace"), cs)
  {
    var tns := GetSomeAttribute(n, "targetNamespace");
    var g0 := g.CheckSection(Types);
    var g1 := g0.(tns := tns);
    SwitchKeeps(g, Types, g.tns);
    SwitchKeeps(g0, Types, tns);
    SchemaChildrenKeep(g1, n, |n.children|, cs);
    ExtendsTrans(g, g0, g1, Types);
    ExtendsTrans(g, g1, PrintXsd(g, n, cs), Types);
  }

  // ----- the document -----

  lemma GrowsTrans(g: Gen, h: Gen, k: Gen)
    requires Grows(g, h) && Grows(h, k)
    ensures Grows(g, k)
  {
  }

  /** Every construct of a WSDL document appends to its own section and never touches the root section. */
  lemma DefinitionChildKeeps(g: Gen, c: Node, cs: Casing)
    requires Settled(g)
    ensures var h := DefinitionChild(g, c, cs);
      Settled(h) && Grows(g, h) && h.mods.root == g.mods.root
  {
    if c.tag == "types" {
      SchemaKeeps(g, c, cs);
      ExtendsGrows(g, PrintXsd(g, c, cs), Types);
    } else if c.tag == "message" {
      MessageKeeps(g, c, cs);
      ExtendsGrows(g, PrintMessage(g, c, cs), Messages);
    } else if c.tag == "portType" {
      PortTypeKeeps(g, c, cs);
      ExtendsGrows(g, PrintPortType(g, c, cs), PortTypes);
    } else if c.tag == "binding" {
      BindingKeeps(g, c, cs);
      ExtendsGrows(g, PrintBinding(g, c, cs), Bindings);
    }
  }

  lemma {:induction false} DefinitionChildrenKeep(g: Gen, n: Node, k: nat, cs: Casing)
    requires Settled(g) && k <= |n.children|
    ensures var h := DefinitionChildren(g, n, k, cs);
      Settled(h) && Grows(g, h) && h.mods.root == g.mods.root
  {
    if k > 0 {
      var g1 := DefinitionChildren(g, n, k - 1, cs);
      DefinitionChildrenKeep(g, n, k - 1, cs);
      DefinitionChildKeeps(g1, n.children[k - 1], cs);
      GrowsTrans(g, g1, DefinitionChildren(g, n, k, cs));
    }
  }

  lemma PrintKeeps(g: Gen, n: Node, cs: Casing)
    requires Settled(g)
    ensures var h := Print(g, n, cs);
      Settled(h) && Grows(g, h) && h.mods.root == g.mods.root
  {
    if n.tag == "definitions" {
      DefinitionChildrenKeep(g, n, |n.children|, cs);
    } else if n.tag == "schema" {
      SchemaKeeps(g, n, cs);
      ExtendsGrows(g, PrintXsd(g, n, cs), Types);
    }
  }

  lemma {:induction false} PrintNodesKeep(g: Gen, ns: seq<Node>, cs: Casing)
    requires Settled(g)
    ensures var h := PrintNodes(g, ns, cs);
      Settled(h) && Grows(g, h) && h.mods.root == g.mods.root
    decreases |ns|
  {
    if ns != [] {
      var g1 := PrintNodes(g, ns[..|ns| - 1], cs);
      PrintNodesKeep(g, ns[..|ns| - 1], cs);
      PrintKeeps(g1, ns[|ns| - 1], cs);
      GrowsTrans(g, g1, PrintNodes(g, ns, cs));
    }
  }

  lemma InitSettled()
    ensures Settled(InitGen())
  {
    forall s: Section
      ensures StageSettled(InitGen().mods.Get(s))
    {
      NewStageShape(s);
    }
  }

  /**
   * Walking a whole document from a new generator leaves every section
   * settled, only appends to the text of each section, and leaves the root
   * section holding exactly the file preamble.
   */
  lemma DocumentSettles(doc: Node, cs: Casing)
    ensures var h := ProcessDocument(InitGen(), doc, cs);
      Settled(h) && Grows(InitGen(), h) && h.mods.root.final == FileHeader
  {
    var g := InitGen();
    InitSettled();
    HeaderKeeps(g);
    assert g.mods.root.final == [];
    PrintNodesKeep(PrintHeader(g), Descendants(doc), cs);
    GrowsTrans(g, PrintHeader(g), ProcessDocument(g, doc, cs));
  }

  /** The preamble is appended to the root section, and to no other. */
  lemma HeaderKeeps(g: Gen)
    requires Settled(g) && g.current == Root
    ensures var h := PrintHeader(g);
      Settled(h) && Grows(g, h) && h.mods.root.final == g.mods.root.final + FileHeader
  {
    WriteKeeps(g, FileHeader);
    ExtendsGrows(g, PrintHeader(g), Root);
  }
}
