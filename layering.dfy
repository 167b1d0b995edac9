/**
 * What the schema walker writes, stated per nesting depth. A construct
 * printed at level `L` writes text at level `L` and, through nested complex
 * types, at deeper levels; its *layers* are that text indexed by depth
 * relative to `L`. The lemmas show that printing a construct appends each
 * layer to the buffer of its depth, pushing buffers exactly as deep as the
 * construct goes, and that a struct printed at level 0 ends up in the final
 * text whole: its nested structs first, innermost first, then itself.
 */
module Layering {
  import opened Wrappers
  import opened Nodes
  import opened Staging
  import opened Templates
  import opened Generator

  function At(ls: seq<string>, i: int): string
  {
    if 0 <= i < |ls| then ls[i] else []
  }

  function Max(a: nat, b: nat): nat
  {
    if a < b then b else a
  }

  /** Two layerings of the same construct, the first written before the second. */
  function Merge(a: seq<string>, b: seq<string>): (r: seq<string>)
    ensures |r| == Max(|a|, |b|)
    ensures forall i :: 0 <= i < |r| ==> r[i] == At(a, i) + At(b, i)
  {
    seq(Max(|a|, |b|), i => At(a, i) + At(b, i))
  }

  /** A stack of buffers after the layers `ls` were written from depth `off` on. */
  function Overlay(bs: seq<string>, off: nat, ls: seq<string>): (r: seq<string>)
    ensures |r| == Max(|bs|, off + |ls|)
    ensures forall i :: 0 <= i < |r| ==> r[i] == At(bs, i) + (if off <= i then At(ls, i - off) else [])
  {
    seq(Max(|bs|, off + |ls|), i => At(bs, i) + (if off <= i then At(ls, i - off) else []))
  }

  // ----- the layers of each construct -----

  function ElementLayers(n: Node, tns: Option<string>, cs: Casing): seq<string>
    decreases n, 3, 0
  {
    match GetSomeAttribute(n, "name")
    case None => []
    case Some(name) =>
      match FindChild(n, "complexType")
      case Some(complex) => [[]] + ComplexLayers(complex, name, tns, cs)
      case None =>
        match GetSomeAttribute(n, "type")
        case None => []
        case Some(typeName) =>
          [RenameLine(name, tns) + FieldLine(name, typeName, GetSomeAttribute(n, "maxOccurs").Some?,
                                             GetSomeAttribute(n, "nillable").Some?, cs)]
  }

  function ComplexLayers(n: Node, name: string, tns: Option<string>, cs: Casing): seq<string>
    decreases n, 2, 0
  {
    var head := [DeriveLine + StructHeader(name, tns, cs)];
    var withSequence := match FindChild(n, "sequence")
      case Some(s) => Merge(head, SequenceLayers(s, tns, cs))
      case None => head;
    var withContent := match FindChild(n, "complexContent")
      case Some(c) => Merge(withSequence, ContentLayers(c, tns, cs))
      case None => withSequence;
    Merge(withContent, [CloseLine])
  }

  function SequenceLayers(n: Node, tns: Option<string>, cs: Casing): seq<string>
    decreases n, 1, 0
  {
    ChildLayers(n, |n.children|, tns, cs)
  }

  function ChildLayers(n: Node, k: nat, tns: Option<string>, cs: Casing): seq<string>
    requires k <= |n.children|
    decreases n, 0, k
  {
    if k == 0 then [] else Merge(ChildLayers(n, k - 1, tns, cs), ElementLayers(n.children[k - 1], tns, cs))
  }

  function ContentLayers(n: Node, tns: Option<string>, cs: Casing): seq<string>
    decreases n, 2, 0
  {
    match FindChild(n, "extension")
    case Some(ext) =>
      var base := Merge([FlattenLine], ExtensionLayers(ext, cs));
      var withSequence := match FindChild(ext, "sequence")
        case Some(s) => Merge(base, SequenceLayers(s, tns, cs))
        case None => base;
      Merge(withSequence, SequenceLayers(n, tns, cs))
    case None => SequenceLayers(n, tns, cs)
  }

  function ExtensionLayers(n: Node, cs: Casing): seq<string>
  {
    match GetSomeAttribute(n, "base")
    case None => []
    case Some(base) => [ExtensionField(base, cs)]
  }

  /** The text a schema element adds to the final text when printed at level 0. */
  function TopLevelText(n: Node, tns: Option<string>, cs: Casing): string
  {
    match GetSomeAttribute(n, "name")
    case None => []
    case Some(name) =>
      match FindChild(n, "complexType")
      case Some(complex) => Unwind(ComplexLayers(complex, name, tns, cs))
      case None =>
        match GetSomeAttribute(n, "type")
        case None => []
        case Some(typeName) => AliasLine(name, typeName, cs)
  }

  // ----- states -----

  /** The current section follows the shared level, with a buffer for every open level (none at level 0). */
  predicate Ready(g: Gen)
  {
    g.level == g.Cur().level && g.Cur().Ready()
  }

  /** The state after the layers `ls` were written into the current section's stack from depth `off`. */
  function Stacked(g: Gen, off: nat, ls: seq<string>): Gen
  {
    g.Update(g.Cur().(buffers := Overlay(g.Cur().buffers, off, ls)))
  }

  // ----- algebra of layers -----

  lemma MergeUnit(a: seq<string>)
    ensures Merge(a, []) == a && Merge([], a) == a
  {
    assert forall i :: 0 <= i < |a| ==> Merge(a, [])[i] == a[i];
    assert forall i :: 0 <= i < |a| ==> Merge([], a)[i] == a[i];
  }

  lemma OverlayNothing(bs: seq<string>, off: nat)
    requires off <= |bs|
    ensures Overlay(bs, off, []) == bs
  {
    assert forall i :: 0 <= i < |bs| ==> Overlay(bs, off, [])[i] == bs[i];
  }

  /** Any depth of an overlay, in range or not. */
  lemma OverlayAt(bs: seq<string>, off: nat, ls: seq<string>, i: int)
    ensures At(Overlay(bs, off, ls), i) == At(bs, i) + (if off <= i then At(ls, i - off) else [])
  {
    if 0 <= i && !(i < |Overlay(bs, off, ls)|) {
      assert !(i < |bs|);
      assert off <= i ==> !(i - off < |ls|);
    }
  }

  lemma MergeAt(a: seq<string>, b: seq<string>, i: int)
    ensures At(Merge(a, b), i) == At(a, i) + At(b, i)
  {
  }

  /** Writing `a` and then `b` from the same depth is writing their merge. */
  lemma OverlayMerge(bs: seq<string>, off: nat, a: seq<string>, b: seq<string>)
    ensures Overlay(Overlay(bs, off, a), off, b) == Overlay(bs, off, Merge(a, b))
  {
    var l := Overlay(Overlay(bs, off, a), off, b);
    var r := Overlay(bs, off, Merge(a, b));
    assert |l| == |r|;
    forall i | 0 <= i < |l|
      ensures l[i] == r[i]
    {
      OverlayAt(Overlay(bs, off, a), off, b, i);
      OverlayAt(bs, off, a, i);
      OverlayAt(bs, off, Merge(a, b), i);
      if off <= i {
        MergeAt(a, b, i - off);
      }
    }
  }

  /** Layers written one level deeper are layers with an empty top layer. */
  lemma OverlayShift(bs: seq<string>, off: nat, ls: seq<string>)
    ensures Overlay(bs, off + 1, ls) == Overlay(bs, off, [[]] + ls)
  {
    var l := Overlay(bs, off + 1, ls);
    var r := Overlay(bs, off, [[]] + ls);
    assert |l| == |r|;
    forall i | 0 <= i < |l|
      ensures l[i] == r[i]
    {
      if off + 1 <= i {
        assert At([[]] + ls, i - off) == At(ls, i - off - 1);
      }
    }
  }

  lemma OverlayEmptyTop(bs: seq<string>)
    ensures Overlay([], 0, bs) == bs
  {
    assert forall i :: 0 <= i < |bs| ==> Overlay([], 0, bs)[i] == bs[i];
  }

  lemma MergeSingles(a: string, b: string)
    ensures Merge([a], [b]) == [a + b]
  {
  }

  /** An empty layer before non-empty layers changes nothing. */
  lemma MergeEmptyFirst(ls: seq<string>)
    requires |ls| >= 1
    ensures Merge([[]], ls) == ls
  {
    var r := Merge([[]], ls);
    assert |r| == |ls|;
    forall i | 0 <= i < |r|
      ensures r[i] == ls[i]
    {
      assert At([[]], i) == [];
    }
  }

  /** Opening one more level pushes a buffer exactly when the stack is no higher than the current level. */
  lemma OverlayPush(bs: seq<string>, L: nat)
    requires L <= |bs|
    ensures Overlay(bs, L, [[]]) == if |bs| < L + 1 then bs + [[]] else bs
  {
    var o := Overlay(bs, L, [[]]);
    var e := if |bs| < L + 1 then bs + [[]] else bs;
    assert |o| == |e|;
    forall i | 0 <= i < |o|
      ensures o[i] == e[i]
    {
      var top: seq<string> := [[]];
      assert L <= i ==> At(top, i - L) == [];
    }
  }

  // ----- the state operations as layers -----

  lemma UpdateTwice(g: Gen, a: Stage, b: Stage)
    ensures g.Update(a).Update(b) == g.Update(b)
    ensures g.Update(a).Cur() == a
  {
    match g.current
    case Root =>
    case Types =>
    case Messages =>
    case PortTypes =>
    case Bindings =>
  }

  lemma UpdateSame(g: Gen)
    ensures g.Update(g.Cur()) == g
  {
    match g.current
    case Root =>
    case Types =>
    case Messages =>
    case PortTypes =>
    case Bindings =>
  }

  /** Writing `a` and then `b` from the same depth is writing their merge. */
  lemma StackedTwice(g: Gen, g1: Gen, g2: Gen, off: nat, a: seq<string>, b: seq<string>)
    requires g1 == Stacked(g, off, a) && g2 == Stacked(g1, off, b)
    ensures g2 == Stacked(g, off, Merge(a, b))
  {
    var st := g.Cur().(buffers := Overlay(g.Cur().buffers, off, a));
    UpdateTwice(g, st, st.(buffers := Overlay(st.buffers, off, b)));
    OverlayMerge(g.Cur().buffers, off, a, b);
  }

  lemma StackedKeepsReady(g: Gen, g1: Gen, off: nat, ls: seq<string>)
    requires Ready(g) && g.level >= 1 && g1 == Stacked(g, off, ls)
    ensures Ready(g1) && g1.level == g.level && g1.current == g.current && g1.tns == g.tns
  {
    UpdateTwice(g, g.Cur(), g.Cur().(buffers := Overlay(g.Cur().buffers, off, ls)));
  }

  lemma StackedNothing(g: Gen, off: nat)
    requires Ready(g) && off < g.level
    ensures Stacked(g, off, []) == g
  {
    OverlayNothing(g.Cur().buffers, off);
    UpdateSame(g);
  }

  lemma StackedShift(g: Gen, deeper: nat, off: nat, ls: seq<string>)
    requires deeper == off + 1
    ensures Stacked(g, deeper, ls) == Stacked(g, off, [[]] + ls)
  {
    OverlayShift(g.Cur().buffers, off, ls);
  }

  /** A write at the current level `L >= 1` is a one-layer write at depth `L - 1`. */
  lemma WriteIsLayer(g: Gen, off: nat, t: string)
    requires Ready(g) && g.level >= 1 && off == g.level - 1
    ensures g.Write(t) == Stacked(g, off, [t])
  {
    var bs := g.Cur().buffers;
    var l := bs[off := bs[off] + t];
    var r := Overlay(bs, off, [t]);
    assert |l| == |r|;
    forall i | 0 <= i < |l|
      ensures l[i] == r[i]
    {
    }
  }

  /** A write after layers `a` extends their last written depth. */
  lemma WriteAfter(g: Gen, g1: Gen, off: nat, a: seq<string>, t: string)
    requires Ready(g) && g.level >= 1 && off == g.level - 1 && g1 == Stacked(g, off, a)
    ensures g1.Write(t) == Stacked(g, off, Merge(a, [t]))
  {
    StackedKeepsReady(g, g1, off, a);
    WriteIsLayer(g1, off, t);
    StackedTwice(g, g1, g1.Write(t), off, a, [t]);
  }

  /** Two writes at the current level `L >= 1` are one layer at depth `L - 1`. */
  lemma TwoWrites(g: Gen, off: nat, t1: string, t2: string)
    requires Ready(g) && g.level >= 1 && off == g.level - 1
    ensures g.Write(t1).Write(t2) == Stacked(g, off, [t1 + t2])
  {
    WriteIsLayer(g, off, t1);
    WriteAfter(g, g.Write(t1), off, [t1], t2);
    MergeSingles(t1, t2);
  }

  /** One level up: the shared and section levels rise, and the stack gets a buffer for the new level. */
  lemma IncLevelIsLayer(g: Gen)
    requires Ready(g)
    ensures var st := g.Cur();
      g.IncLevel() == g.(level := g.level + 1).Update(st.(level := g.level + 1, buffers := Overlay(st.buffers, g.level, [[]])))
    ensures Ready(g.IncLevel()) && g.IncLevel().level == g.level + 1 && g.IncLevel().tns == g.tns
    ensures g.IncLevel().current == g.current
  {
    var st := g.Cur();
    OverlayPush(st.buffers, g.level);
    SetLevelShape(st, g.level + 1);
    UpdateTwice(g, st, st.(level := g.level + 1, buffers := Overlay(st.buffers, g.level, [[]])));
  }

  /** The stack of a struct at level `L` once its layers are written: one level up, the layers from depth `L`. */
  lemma RaisedStack(g: Gen, g5: Gen, L: nat, layers: seq<string>)
    requires Ready(g) && L == g.level && |layers| >= 1
    requires g5 == Stacked(g.IncLevel(), L, layers)
    ensures var st := g.Cur().(level := L + 1, buffers := Overlay(g.Cur().buffers, L, layers));
      g5 == g.(level := L + 1).Update(st) && g5.Cur() == st && g5.level == L + 1
  {
    var st := g.Cur();
    var b1 := Overlay(st.buffers, L, [[]]);
    var o := Overlay(st.buffers, L, layers);
    IncLevelIsLayer(g);
    OverlayMerge(st.buffers, L, [[]], layers);
    MergeEmptyFirst(layers);
    UpdateTwice(g.(level := L + 1), st.(level := L + 1, buffers := b1), st.(level := L + 1, buffers := o));
    UpdateTwice(g.(level := L + 1), st.(level := L + 1, buffers := o), st.(level := L + 1, buffers := o));
  }

  /** Lowering the level back to `L` is lowering it in the raised section. */
  lemma LowerAgain(g: Gen, g5: Gen, L: nat, st5: Stage)
    requires g5 == g.(level := L + 1).Update(st5) && g5.Cur() == st5
    ensures g5.DecLevel() == g.(level := L).Update(st5.SetLevel(L))
  {
    UpdateTwice(g.(level := L), st5, st5.SetLevel(L));
  }

  /** At level 0 the struct's stack is flushed whole into the final text. */
  lemma StageCloseTop(st: Stage, layers: seq<string>)
    requires st.Ready() && st.level == 0
    ensures st.(level := 1, buffers := Overlay(st.buffers, 0, layers)).SetLevel(0) == st.(final := st.final + Unwind(layers))
  {
    OverlayEmptyTop(layers);
    FlushBuffersUnwinds(st.(buffers := layers));
  }

  /** Deeper down the struct's layers stay on the stack. */
  lemma StageCloseNested(st: Stage, L: nat, layers: seq<string>)
    requires st.Ready() && st.level == L && L >= 1 && |layers| >= 1
    ensures st.(level := L + 1, buffers := Overlay(st.buffers, L, layers)).SetLevel(L) == st.(buffers := Overlay(st.buffers, L, layers))
  {
  }

  /**
   * Closing a struct: its layers were written from depth `L` after the
   * level was raised from `L`; lowering it again keeps them on the stack,
   * except at level 0, where the stack is flushed into the final text.
   */
  lemma CloseStruct(g: Gen, g5: Gen, L: nat, layers: seq<string>)
    requires Ready(g) && L == g.level && |layers| >= 1
    requires g5 == Stacked(g.IncLevel(), L, layers)
    ensures g5.level == L + 1
    ensures L >= 1 ==> g5.DecLevel() == Stacked(g, L, layers)
    ensures L == 0 ==> g5.DecLevel() == g.Update(g.Cur().(final := g.Cur().final + Unwind(layers)))
  {
    var st := g.Cur();
    var st5 := st.(level := L + 1, buffers := Overlay(st.buffers, L, layers));
    RaisedStack(g, g5, L, layers);
    LowerAgain(g, g5, L, st5);
    if L == 0 {
      StageCloseTop(st, layers);
    } else {
      StageCloseNested(st, L, layers);
    }
  }

  // ----- printing as layers -----

  /** At a level `L >= 1`, an element adds its layers to the stack from depth `L - 1`. */
  lemma {:induction false} ElementWrites(g: Gen, n: Node, off: nat, tns: Option<string>, cs: Casing)
    requires Ready(g) && g.level >= 1 && off == g.level - 1 && tns == g.tns
    ensures PrintElement(g, n, cs) == Stacked(g, off, ElementLayers(n, tns, cs))
    decreases n, 3, 1
  {
    match GetSomeAttribute(n, "name")
    case None =>
      StackedNothing(g, off);
    case Some(name) =>
      match FindChild(n, "complexType")
      case Some(complex) =>
        ComplexWrites(g, complex, name, g.level, tns, cs);
        ElementIsStruct(g, n, name, complex, off, tns, cs);
      case None =>
        match GetSomeAttribute(n, "type")
        case None =>
          StackedNothing(g, off);
        case Some(typeName) =>
          FieldWrites(g, n, name, typeName, off, tns, cs);
  }

  /** An element with a nested complex type writes the struct one depth further down. */
  lemma ElementIsStruct(g: Gen, n: Node, name: string, complex: Node, off: nat, tns: Option<string>, cs: Casing)
    requires GetSomeAttribute(n, "name") == Some(name) && FindChild(n, "complexType") == Some(complex)
    requires Ready(g) && g.level >= 1 && off == g.level - 1
    requires PrintComplexElement(g, complex, name, cs) == Stacked(g, g.level, ComplexLayers(complex, name, tns, cs))
    ensures PrintElement(g, n, cs) == Stacked(g, off, ElementLayers(n, tns, cs))
  {
    StackedShift(g, g.level, off, ComplexLayers(complex, name, tns, cs));
  }

  /** A typed element inside a struct writes its rename attribute and its field as one layer. */
  lemma FieldWrites(g: Gen, n: Node, name: string, typeName: string, off: nat, tns: Option<string>, cs: Casing)
    requires Ready(g) && g.level >= 1 && off == g.level - 1 && tns == g.tns
    requires GetSomeAttribute(n, "name") == Some(name) && FindChild(n, "complexType") == None
    requires GetSomeAttribute(n, "type") == Some(typeName)
    ensures PrintElement(g, n, cs) == Stacked(g, off, ElementLayers(n, tns, cs))
  {
    var line1 := RenameLine(name, tns);
    var line2 := FieldLine(name, typeName, GetSomeAttribute(n, "maxOccurs").Some?,
                           GetSomeAttribute(n, "nillable").Some?, cs);
    TwoWrites(g, off, line1, line2);
  }

  /** An element printed after layers `before`, from the same depth. */
  lemma {:induction false} ElementAfter(g: Gen, g1: Gen, n: Node, off: nat, tns: Option<string>,
                                        before: seq<string>, cs: Casing)
    requires Ready(g) && g.level >= 1 && off == g.level - 1 && tns == g.tns && g1 == Stacked(g, off, before)
    ensures PrintElement(g1, n, cs) == Stacked(g, off, Merge(before, ElementLayers(n, tns, cs)))
    decreases n, 4, 0
  {
    StackedKeepsReady(g, g1, off, before);
    ElementWrites(g1, n, off, tns, cs);
    StackedTwice(g, g1, PrintElement(g1, n, cs), off, before, ElementLayers(n, tns, cs));
  }

  /** A complex type printed at a level `L >= 1` adds its layers to the stack from depth `L`. */
  lemma {:induction false} ComplexWrites(g: Gen, n: Node, name: string, L: nat, tns: Option<string>, cs: Casing)
    requires Ready(g) && L == g.level && L >= 1 && tns == g.tns
    ensures PrintComplexElement(g, n, name, cs) == Stacked(g, L, ComplexLayers(n, name, tns, cs))
    decreases n, 2, 1
  {
    IncLevelIsLayer(g);
    StructWrites(g.IncLevel(), n, name, L, tns, cs);
    CloseStruct(g, StructBody(g.IncLevel(), n, name, cs), L, ComplexLayers(n, name, tns, cs));
  }

  /**
   * A complex type printed at level 0: the stack is flushed on the way out,
   * so its layers land in the final text innermost first and the stack is
   * empty again.
   */
  lemma ComplexAtTop(g: Gen, n: Node, name: string, cs: Casing)
    requires Ready(g) && g.level == 0
    ensures PrintComplexElement(g, n, name, cs) ==
            g.Update(g.Cur().(final := g.Cur().final + Unwind(ComplexLayers(n, name, g.tns, cs))))
  {
    IncLevelIsLayer(g);
    StructWrites(g.IncLevel(), n, name, 0, g.tns, cs);
    CloseStruct(g, StructBody(g.IncLevel(), n, name, cs), 0, ComplexLayers(n, name, g.tns, cs));
  }

  /**
   * At level 0 an element adds its whole text to the final text: its struct
   * with the structs nested in it, or its type alias, or nothing.
   */
  lemma ElementAtTop(g: Gen, n: Node, cs: Casing)
    requires Ready(g) && g.level == 0
    ensures PrintElement(g, n, cs) == g.Update(g.Cur().(final := g.Cur().final + TopLevelText(n, g.tns, cs)))
  {
    var st := g.Cur();
    match GetSomeAttribute(n, "name")
    case None =>
      assert st.(final := st.final + []) == st;
      UpdateSame(g);
    case Some(name) =>
      match FindChild(n, "complexType")
      case Some(complex) =>
        ComplexAtTop(g, complex, name, cs);
      case None =>
        match GetSomeAttribute(n, "type")
        case None =>
          assert st.(final := st.final + []) == st;
          UpdateSame(g);
        case Some(typeName) =>
  }

  /** Printing an element keeps the stack discipline, at any level. */
  lemma ElementKeepsReady(g: Gen, n: Node, cs: Casing)
    requires Ready(g)
    ensures Ready(PrintElement(g, n, cs))
  {
    if g.level == 0 {
      ElementAtTop(g, n, cs);
      var st := g.Cur();
      UpdateTwice(g, st, st.(final := st.final + TopLevelText(n, g.tns, cs)));
    } else {
      var off :| off + 1 == g.level;
      NestedKeepsReady(g, n, off, cs);
    }
  }

  /** Below level 0 an element only adds to the buffers of the levels it reaches. */
  lemma NestedKeepsReady(g: Gen, n: Node, off: nat, cs: Casing)
    requires Ready(g) && g.level >= 1 && off == g.level - 1
    ensures Ready(PrintElement(g, n, cs))
  {
    ElementWrites(g, n, off, g.tns, cs);
    StackedKeepsReady(g, PrintElement(g, n, cs), off, ElementLayers(n, g.tns, cs));
  }

  /** Inside the struct, one level deeper: what is written before the level drops again. */
  lemma {:induction false} StructWrites(g: Gen, n: Node, name: string, off: nat, tns: Option<string>, cs: Casing)
    requires Ready(g) && g.level >= 1 && off == g.level - 1 && tns == g.tns
    ensures StructBody(g, n, name, cs) == Stacked(g, off, ComplexLayers(n, name, tns, cs))
    decreases n, 2, 0
  {
    var header := StructHeader(name, tns, cs);
    var head := [DeriveLine + header];
    WriteIsLayer(g, off, DeriveLine);
    WriteAfter(g, g.Write(DeriveLine), off, [DeriveLine], header);
    MergeSingles(DeriveLine, header);
    var g2 := g.Write(DeriveLine).Write(header);

    var withSequence := match FindChild(n, "sequence")
      case Some(s) => Merge(head, SequenceLayers(s, tns, cs))
      case None => head;
    var g3 := match FindChild(n, "sequence")
      case Some(s) => PrintSequence(g2, s, cs)
      case None => g2;
    match FindChild(n, "sequence") {
      case Some(s) => SequenceAfter(g, g2, s, off, tns, head, cs);
      case None =>
    }

    var withContent := match FindChild(n, "complexContent")
      case Some(c) => Merge(withSequence, ContentLayers(c, tns, cs))
      case None => withSequence;
    var g4 := match FindChild(n, "complexContent")
      case Some(c) => PrintComplexContent(g3, c, cs)
      case None => g3;
    match FindChild(n, "complexContent") {
      case Some(c) => ContentAfter(g, g3, c, off, tns, withSequence, cs);
      case None =>
    }

    WriteAfter(g, g4, off, withContent, CloseLine);
  }

  lemma {:induction false} SequenceWrites(g: Gen, n: Node, off: nat, tns: Option<string>, cs: Casing)
    requires Ready(g) && g.level >= 1 && off == g.level - 1 && tns == g.tns
    ensures PrintSequence(g, n, cs) == Stacked(g, off, SequenceLayers(n, tns, cs))
    decreases n, 1, 0
  {
    ChildrenWrite(g, n, |n.children|, off, tns, cs);
  }

  /** A sequence printed after layers `before`, from the same depth. */
  lemma {:induction false} SequenceAfter(g: Gen, g1: Gen, n: Node, off: nat, tns: Option<string>,
                                         before: seq<string>, cs: Casing)
    requires Ready(g) && g.level >= 1 && off == g.level - 1 && tns == g.tns && g1 == Stacked(g, off, before)
    ensures PrintSequence(g1, n, cs) == Stacked(g, off, Merge(before, SequenceLayers(n, tns, cs)))
    decreases n, 1, 1
  {
    StackedKeepsReady(g, g1, off, before);
    SequenceWrites(g1, n, off, tns, cs);
    StackedTwice(g, g1, PrintSequence(g1, n, cs), off, before, SequenceLayers(n, tns, cs));
  }

  lemma {:induction false} ChildrenWrite(g: Gen, n: Node, k: nat, off: nat, tns: Option<string>, cs: Casing)
    requires Ready(g) && g.level >= 1 && off == g.level - 1 && tns == g.tns && k <= |n.children|
    ensures SequenceChildren(g, n, k, cs) == Stacked(g, off, ChildLayers(n, k, tns, cs))
    decreases n, 0, k
  {
    if k == 0 {
      StackedNothing(g, off);
    } else {
      ChildrenWrite(g, n, k - 1, off, tns, cs);
      ElementAfter(g, SequenceChildren(g, n, k - 1, cs), n.children[k - 1], off, tns,
                   ChildLayers(n, k - 1, tns, cs), cs);
    }
  }

  lemma {:induction false} ContentWrites(g: Gen, n: Node, off: nat, tns: Option<string>, cs: Casing)
    requires Ready(g) && g.level >= 1 && off == g.level - 1 && tns == g.tns
    ensures PrintComplexContent(g, n, cs) == Stacked(g, off, ContentLayers(n, tns, cs))
    decreases n, 2, 0
  {
    match FindChild(n, "extension") {
      case Some(ext) =>
        WriteIsLayer(g, off, FlattenLine);
        var g1 := g.Write(FlattenLine);
        var base := Merge([FlattenLine], ExtensionLayers(ext, cs));
        ExtensionAfter(g, g1, ext, off, [FlattenLine], cs);
        var g2 := PrintExtension(g1, ext, cs);
        var withSequence := match FindChild(ext, "sequence")
          case Some(s) => Merge(base, SequenceLayers(s, tns, cs))
          case None => base;
        match FindChild(ext, "sequence") {
          case Some(s) => SequenceAfter(g, g2, s, off, tns, base, cs);
          case None =>
        }
        var g3 := match FindChild(ext, "sequence")
          case Some(s) => PrintSequence(g2, s, cs)
          case None => g2;
        SequenceAfter(g, g3, n, off, tns, withSequence, cs);
      case None =>
        SequenceWrites(g, n, off, tns, cs);
    }
  }

  /** Complex content printed after layers `before`, from the same depth. */
  lemma {:induction false} ContentAfter(g: Gen, g1: Gen, n: Node, off: nat, tns: Option<string>,
                                        before: seq<string>, cs: Casing)
    requires Ready(g) && g.level >= 1 && off == g.level - 1 && tns == g.tns && g1 == Stacked(g, off, before)
    ensures PrintComplexContent(g1, n, cs) == Stacked(g, off, Merge(before, ContentLayers(n, tns, cs)))
    decreases n, 2, 1
  {
    StackedKeepsReady(g, g1, off, before);
    ContentWrites(g1, n, off, tns, cs);
    StackedTwice(g, g1, PrintComplexContent(g1, n, cs), off, before, ContentLayers(n, tns, cs));
  }

  /** The base of an extension printed after layers `before`. */
  lemma ExtensionAfter(g: Gen, g1: Gen, n: Node, off: nat, before: seq<string>, cs: Casing)
    requires Ready(g) && g.level >= 1 && off == g.level - 1 && g1 == Stacked(g, off, before)
    ensures PrintExtension(g1, n, cs) == Stacked(g, off, Merge(before, ExtensionLayers(n, cs)))
  {
    match GetSomeAttribute(n, "base") {
      case None =>
        MergeUnit(before);
      case Some(b) =>
        WriteAfter(g, g1, off, before, ExtensionField(b, cs));
    }
  }
}
