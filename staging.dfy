/**
 * The per-section staging buffer of the generator, as a value: the text
 * already final for the section, a stack with one buffer per open nesting
 * level, a delayed buffer flushed at the end of a construct, the list of
 * delayed texts already queued, and the section's own nesting level.
 */
module Staging {
  import opened Cursors

  datatype Section = Root | Types | Messages | PortTypes | Bindings

  const MessagesMod := "messages"
  const TypesMod := "types"
  const PortsMod := "ports"
  const BindingsMod := "bindings"

  /** The name of the generated Rust module holding a section; the root section has none. */
  function ModName(s: Section): string
    requires s != Root
  {
    match s
    case Types => TypesMod
    case Messages => MessagesMod
    case PortTypes => PortsMod
    case Bindings => BindingsMod
  }

  /** The concatenation of a stack of buffers, innermost (last pushed) first. */
  function Unwind(buffers: seq<string>): string
  {
    if buffers == [] then [] else Unwind(buffers[1..]) + buffers[0]
  }

  datatype Stage = Stage(section: Section, level: nat, buffers: seq<string>,
                         delayed: Cursor, final: string, defined: seq<string>)
  {
    /** `write(buf, at)`: level 0 goes to the final text, level `at` to the buffer `at - 1` if it exists. */
    function Write(buf: string, at: nat): Stage
    {
      if at == 0 then this.(final := final + buf)
      else if at - 1 < |buffers| then this.(buffers := buffers[at - 1 := buffers[at - 1] + buf])
      else this
    }

    /** `delayed_write`: a write to the delayed cursor. */
    function DelayedWrite(buf: string): Stage
    {
      this.(delayed := delayed.Write(buf))
    }

    /** `flush_buffers`: pops the stack, appending each popped buffer to the final text. */
    function FlushBuffers(): Stage
      decreases |buffers|
    {
      if buffers == [] then this
      else this.(buffers := buffers[..|buffers| - 1], final := final + buffers[|buffers| - 1]).FlushBuffers()
    }

    /**
     * `flush_delayed_buffer`: rewinds the delayed cursor and copies all of its
     * text to the final text at level 0, else to the buffer of the level; the
     * copy leaves the cursor at the end. When that buffer does not exist
     * nothing is copied and the cursor stays rewound.
     */
    function FlushDelayedBuffer(): Stage
    {
      var text := delayed.data;
      if level == 0 then this.(final := final + text, delayed := Cursor(text, |text|))
      else if level - 1 < |buffers| then
        this.(buffers := buffers[level - 1 := buffers[level - 1] + text], delayed := Cursor(text, |text|))
      else this.(delayed := Cursor(text, 0))
    }

    /** `set_level`: level 0 flushes the stack; a level above the stack height pushes one empty buffer. */
    function SetLevel(l: nat): Stage
    {
      var s := this.(level := l);
      var t := if l == 0 then s.FlushBuffers() else s;
      if |t.buffers| < l then t.(buffers := t.buffers + [[]]) else t
    }

    function SeenType(t: string): Stage
    {
      this.(defined := defined + [t])
    }

    function ResetDefinedTypes(): Stage
    {
      this.(defined := [])
    }

    predicate HaveSeenType(t: string)
    {
      t in defined
    }

    /** `print_footer`: closes the module of every section but the root. */
    function PrintFooter(): Stage
    {
      if section == Root then this else Write("}\n\n", 0)
    }

    /** `read_for_output`: the footer, then the whole final text. */
    function ReadForOutput(): (Stage, string)
    {
      var s := PrintFooter();
      (s, s.final)
    }

    /** Unit-step discipline: the stack reaches the level, and is empty at level 0. */
    predicate Ready()
    {
      level <= |buffers| && (level == 0 ==> buffers == [])
    }
  }

  /** `ModWriter::new`: an empty stage, whose final text opens the section's module. */
  function NewStage(section: Section): Stage
  {
    var s := Stage(section, 0, [], Empty, [], []);
    if section == Root then s
    else
      s.Write("pub mod " + ModName(section) + " {\n", 0)
       .Write("use yaserde::{{YaSerialize, YaDeserialize}};\n\n", 0)
       .Write("use super::*;\n\n", 0)
  }

  // ----- properties of the staging buffer -----

  /** The innermost buffer comes first in the unwound text. */
  lemma {:induction false} UnwindPush(buffers: seq<string>, b: string)
    ensures Unwind(buffers + [b]) == b + Unwind(buffers)
  {
    if buffers == [] {
      assert ([] + [b])[1..] == [];
    } else {
      assert (buffers + [b])[1..] == buffers[1..] + [b];
      UnwindPush(buffers[1..], b);
    }
  }

  /** `flush_buffers` empties the stack and appends its buffers to the final text, last pushed first. */
  lemma {:induction false} FlushBuffersUnwinds(st: Stage)
    ensures st.FlushBuffers() == st.(buffers := [], final := st.final + Unwind(st.buffers))
    decreases |st.buffers|
  {
    if st.buffers != [] {
      var n := |st.buffers|;
      var rest := st.buffers[..n - 1];
      var top := st.buffers[n - 1];
      FlushBuffersUnwinds(st.(buffers := rest, final := st.final + top));
      assert st.buffers == rest + [top];
      UnwindPush(rest, top);
    }
  }

  /**
   * `write` at level 0 appends exactly `buf` to the final text; at level
   * `at > 0` it appends to buffer `at - 1` when that exists and otherwise
   * drops the text; nothing else changes.
   */
  lemma WriteLands(st: Stage, buf: string, at: nat)
    ensures var r := st.Write(buf, at);
      r.level == st.level && r.delayed == st.delayed && r.defined == st.defined &&
      |r.buffers| == |st.buffers| &&
      (at == 0 ==> r.final == st.final + buf && r.buffers == st.buffers) &&
      (at > 0 ==> r.final == st.final) &&
      (forall i :: 0 <= i < |st.buffers| ==>
         r.buffers[i] == if i == at - 1 then st.buffers[i] + buf else st.buffers[i]) &&
      (at > |st.buffers| ==> r == st)
  {
  }

  /**
   * `set_level(0)` leaves the stack empty, having appended it to the final
   * text innermost first; any other level keeps the buffers and pushes at most
   * one empty buffer, exactly when the stack is lower than the level.
   */
  lemma SetLevelShape(st: Stage, l: nat)
    ensures var r := st.SetLevel(l);
      r.level == l && r.delayed == st.delayed && r.defined == st.defined &&
      (l == 0 ==> r.buffers == [] && r.final == st.final + Unwind(st.buffers)) &&
      (l > 0 ==> r.final == st.final &&
                 r.buffers == if |st.buffers| < l then st.buffers + [[]] else st.buffers)
  {
    FlushBuffersUnwinds(st.(level := l));
  }

  /** Unit steps keep the stack at least as high as the level, so writes at the current level land. */
  lemma {:induction false} UnitStepsKeepReady(st: Stage)
    requires st.Ready()
    ensures st.SetLevel(st.level + 1).Ready()
    ensures st.level > 0 ==> st.SetLevel(st.level - 1).Ready()
    ensures st.level > 0 ==> st.Write("x", st.level).buffers != st.buffers
  {
    SetLevelShape(st, st.level + 1);
    if st.level > 0 {
      SetLevelShape(st, st.level - 1);
      assert st.Write("x", st.level).buffers[st.level - 1] == st.buffers[st.level - 1] + "x";
    }
  }

  /**
   * A jump of more than one level leaves a level without a buffer, and a
   * write at that level is dropped.
   */
  lemma JumpDropsWrites(section: Section, buf: string)
    ensures NewStage(section).SetLevel(2).Write(buf, 2) == NewStage(section).SetLevel(2)
  {
  }

  /**
   * `flush_delayed_buffer` at level 0 appends everything ever queued and does
   * not clear it: a second flush emits the same text again.
   */
  lemma {:induction false} FlushDelayedReemits(st: Stage, later: string)
    requires st.level == 0 && st.delayed.AtEnd()
    ensures var once := st.FlushDelayedBuffer();
      once.final == st.final + st.delayed.data && once.delayed == st.delayed &&
      once.DelayedWrite(later).FlushDelayedBuffer().final == st.final + st.delayed.data + st.delayed.data + later
  {
    var once := st.FlushDelayedBuffer();
    WriteAtEndAppends(once.delayed, later);
  }

  /**
   * With the stack at least as high as the level, flushing the delayed text
   * leaves the cursor at its end, so later delayed writes append; without a
   * buffer for the level the cursor is rewound and a later delayed write
   * overwrites the start of what was queued.
   */
  lemma FlushDelayedCursor(st: Stage)
    ensures st.level <= |st.buffers| ==> st.FlushDelayedBuffer().delayed == Cursor(st.delayed.data, |st.delayed.data|)
    ensures st.level > |st.buffers| ==> st.FlushDelayedBuffer() == st.(delayed := Cursor(st.delayed.data, 0))
  {
  }

  /** A new stage for a module section starts with the module header and is otherwise empty. */
  lemma NewStageShape(section: Section)
    ensures var s := NewStage(section);
      s.section == section && s.level == 0 && s.buffers == [] && s.delayed == Empty && s.defined == [] &&
      s.Ready() &&
      (section == Root ==> s.final == []) &&
      (section != Root ==> s.final == "pub mod " + ModName(section) + " {\n" +
                                      "use yaserde::{{YaSerialize, YaDeserialize}};\n\n" + "use super::*;\n\n")
  {
  }

  /** The output of a module section ends with the footer that closes the module. */
  lemma ReadForOutputCloses(st: Stage)
    ensures var (r, text) := st.ReadForOutput();
      text == r.final && text == st.final + (if st.section == Root then "" else "}\n\n")
  {
  }
}
